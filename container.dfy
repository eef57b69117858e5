/**
 * The runtime of the container: binding builders, member injectors, the two providers that
 * build instances, and the injector that wires them together.  Reflective effects (setting
 * a field, invoking a method or a constructor) are recorded as events in the injector's
 * trace instead of being performed.
 */
module Container {
  import opened Results
  import opened Reflect
  import opened Types
  import opened Hierarchy
  import opened Resolution
  import opened Keys
  import opened TypeUtils
  import opened Members

  // ---- Values and providers

  /** What a provider yields and a member receives. */
  datatype Value =
    | Null
    /** An object the container constructed, by allocation number. */
    | Created(id: nat)
    /** An object a module handed over with `to(instance)`. */
    | UserObject(id: nat)
    /** The injector itself, which the base module binds to `Injector`. */
    | InjectorSelf
    /** A `Provider` object, as a `Provider<X>` member receives it. */
    | ProviderValue(provider: Provider)

  /** The `javax.inject.Provider` objects the container hands out. */
  datatype Provider =
    /** `Binding.ProviderImpl`: always the same instance. */
    | ProviderImpl(instance: Value)
    /** A provider a module supplies with `to(provider)`; its `get()` is not container code. */
    | UserProvider(id: nat, result: Value)
    /** `PrototypeProvider`: every `get()` builds a new instance. */
    | PrototypeProvider(source: InstanceProvider)
    /**
     * `SingletonProvider`, by allocation number: its cached instance is kept by the injector,
     * in `Injector.singletons`.
     */
    | SingletonScoped(serial: nat, source: InstanceProvider)
    /** The lambda `() -> fun.apply(key)` stored for a `Provider<X>` member. */
    | Deferred(key: BindingKey)

  /** A reflective effect, in the order the container causes it; `target` is `Null` for a static member. */
  datatype Event =
    | Constructed(target: Value, ctor: CtorInfo, args: seq<Value>)
    | FieldSet(target: Value, field: FieldInfo, value: Value)
    | Invoked(target: Value, methodInfo: MethodInfo, args: seq<Value>)
    | PostConstructed(target: Value, methodInfo: MethodInfo)
    | PreDestroyed(target: Value, methodInfo: MethodInfo)

  /** The `Runnable` registered for teardown: `() -> preDestroy(instance)`. */
  datatype Hook = Hook(instance: Value, methodInfo: MethodInfo)

  /** The two provisions a scope maps to: `PrototypeProvider::new` and `SingletonProvider::new`. */
  datatype Strategy = PrototypeStrategy | SingletonStrategy

  // ---- Dependencies of fields and parameters

  /** The binding a member depends on, and whether it is taken through `Provider<X>`. */
  datatype Dependency = Dependency(key: BindingKey, deferred: bool)

  /**
   * The key of a field or parameter whose declared type, resolved in the instantiated
   * class, is `declared`: that type and the member's qualifier; for a member of raw type
   * `Provider`, the type argument of `Provider<X>` instead, the lookup being deferred.
   */
  function DependencyOf(ct: ClassTable, declared: TypeData, rawType: Cls, annotations: seq<Annotation>): Result<Dependency> {
    var qualifier :- SelectQualifier(Qualifiers(ct, annotations));
    if rawType != Named(ProviderClass) then Success(Dependency(BindingKeyOf(declared, qualifier), false))
    else if !declared.ty.Param? then Failure(ClassCast)
    else if |declared.ty.args| == 0 then Failure(IndexOutOfBounds)
    else
      var t :- Get(ct, declared.ty.args[0]);
      Success(Dependency(BindingKeyOf(t, qualifier), true))
  }

  /** The dependency of `field` as `providerCheck` resolves it: the field type resolved in `typeData`. */
  function FieldDependency(ct: ClassTable, typeData: TypeData, field: FieldInfo, fuel: nat): Result<Dependency>
    requires Valid(ct)
  {
    var fieldType :- GetFieldType(ct, typeData, field, fuel);
    DependencyOf(ct, fieldType, field.rawType, field.annotations)
  }

  /** What `providerCheck` stores for a dependency: the bound provider now, or a thunk. */
  function Supply(d: Dependency, bindings: map<BindingKey, Provider>): Option<Provider> {
    if d.deferred then Some(Deferred(d.key))
    else if d.key in bindings then Some(bindings[d.key]) else None
  }

  /** What `providerCheck` stores for one field or parameter, or the exception it throws. */
  function SupplyOf(ct: ClassTable, declared: TypeData, rawType: Cls, annotations: seq<Annotation>,
                    bindings: map<BindingKey, Provider>): Result<Option<Provider>> {
    var d :- DependencyOf(ct, declared, rawType, annotations);
    Success(Supply(d, bindings))
  }

  /**
   * The body `providerCheck` runs for one field or parameter of resolved type `declared`:
   * its qualifier, then for a `Provider` member the cast to `ParameterizedType` and the
   * descriptor of the first type argument, wrapped in a thunk; for any other member the
   * provider bound to the key, if any.
   */
  method CheckDependency(ct: ClassTable, declared: TypeData, rawType: Cls, annotations: seq<Annotation>,
                         bindings: map<BindingKey, Provider>) returns (r: Result<Option<Provider>>)
    ensures r == SupplyOf(ct, declared, rawType, annotations, bindings)
  {
    var qualifier :- GetQualifierAnnotation(ct, annotations);
    if rawType == Named(ProviderClass) {
      if !declared.ty.Param? {
        return Failure(ClassCast);
      }
      if |declared.ty.args| == 0 {
        return Failure(IndexOutOfBounds);
      }
      var providerType :- Get(ct, declared.ty.args[0]);
      r := Success(Some(Deferred(BindingKeyOf(providerType, qualifier))));
    } else {
      var key := BindingKeyOf(declared, qualifier);
      r := Success(if key in bindings then Some(bindings[key]) else None);
    }
  }

  /**
   * A dependency is deferred exactly when the member's raw type is `Provider`; its qualifier
   * is the member's only qualifier annotation; an eager one is keyed by the resolved type
   * itself and a deferred one by the descriptor of `Provider`'s type argument.  A deferred
   * dependency stores the same thunk whatever is bound, so no lookup happens for it.
   */
  lemma DependencyCharacterised(ct: ClassTable, declared: TypeData, rawType: Cls, annotations: seq<Annotation>,
                                b1: map<BindingKey, Provider>, b2: map<BindingKey, Provider>)
    ensures var r := DependencyOf(ct, declared, rawType, annotations);
            var q := SelectQualifier(Qualifiers(ct, annotations));
            && (q.Failure? ==> r == Failure(MoreThanOneQualifier))
            && (r.Success? ==>
                  && q.Success? && r.value.key.keyClass == BindingKeyClass && r.value.key.b == q.value
                  && (r.value.deferred <==> rawType == Named(ProviderClass))
                  && (!r.value.deferred ==> r.value.key.a == Some(declared))
                  && (r.value.deferred ==> Get(ct, declared.ty.args[0]) == Success(r.value.key.a.value))
                  && (r.value.deferred ==> Supply(r.value, b1) == Supply(r.value, b2) == Some(Deferred(r.value.key)))
                  && (!r.value.deferred ==> (Supply(r.value, b1).Some? <==> r.value.key in b1)))
            && (q.Success? && rawType == Named(ProviderClass) && !declared.ty.Param? ==> r == Failure(ClassCast))
  {
    QualifierCharacterised(ct, annotations);
  }

  // ---- Binding

  /** The settings of a binding builder. */
  datatype BindingState = BindingState(typeData: TypeData, qualifier: Option<Annotation>,
                                       implementation: Option<TypeData>, scope: Option<ClassName>,
                                       provider: Option<Provider>)

  /** The calls a module makes on the `BindingConfig` that `bind` returns. */
  datatype Config =
    | AnnotateCall(annotationClass: ClassName)
    | NameCall(name: string)
    | ScopeCall(scope: ClassName)
    | ToImplementationCall(implementation: TypeData)
    | ToProviderCall(provider: Provider)
    | ToInstanceCall(instance: Value)

  /** `Qualifiers.from(annotationClass)`: an annotation of that type with its default values. */
  function QualifierFrom(annotationClass: ClassName): Annotation {
    Annotation(annotationClass, [])
  }

  /** `Qualifiers.named(name)`: equal to every `@Named` with the same value. */
  function QualifierNamed(name: string): Annotation {
    Annotation(NamedAnnotation, [name])
  }

  /** A new binding: implemented by the bound type itself, unqualified, unscoped. */
  function NewBinding(t: TypeData): BindingState {
    BindingState(t, None, Some(t), None, None)
  }

  /** One call on a binding builder. */
  function Apply(s: BindingState, call: Config): BindingState {
    match call
    case AnnotateCall(a) => s.(qualifier := Some(QualifierFrom(a)))
    case NameCall(n) => s.(qualifier := Some(QualifierNamed(n)))
    case ScopeCall(sc) => s.(scope := Some(sc), provider := None)
    case ToImplementationCall(t) => s.(implementation := Some(t), provider := None)
    case ToProviderCall(p) => s.(provider := Some(p), scope := None, implementation := None)
    case ToInstanceCall(v) => s.(provider := Some(ProviderImpl(v)), scope := None, implementation := None)
  }

  /** A sequence of calls on one binding builder, in order. */
  function ApplyAll(s: BindingState, calls: seq<Config>): BindingState {
    if |calls| == 0 then s else Apply(ApplyAll(s, calls[..|calls| - 1]), calls[|calls| - 1])
  }

  predicate IsQualifierCall(call: Config) {
    call.AnnotateCall? || call.NameCall?
  }

  function QualifierOfCall(call: Config): Annotation
    requires IsQualifierCall(call)
  {
    if call.AnnotateCall? then QualifierFrom(call.annotationClass) else QualifierNamed(call.name)
  }

  /** `key()`: the bound type and the current qualifier. */
  function KeyOf(s: BindingState): BindingKey {
    BindingKeyOf(s.typeData, s.qualifier)
  }

  /** What `provider()` does: return the explicit provider, or ask the builder for one. */
  datatype ProviderChoice = Explicit(provider: Provider) | Built(implementation: Option<TypeData>, scope: Option<ClassName>)

  function ChoiceOf(s: BindingState): ProviderChoice {
    if s.provider.Some? then Explicit(s.provider.value) else Built(s.implementation, s.scope)
  }

  /**
   * The last `annotated` or `named` call sets the qualifier of the key, whatever else is
   * called; the bound type never changes.
   */
  lemma {:induction false} LastQualifierWins(s: BindingState, calls: seq<Config>, i: nat)
    requires i < |calls| && IsQualifierCall(calls[i])
    requires forall j | i < j < |calls| :: !IsQualifierCall(calls[j])
    ensures KeyOf(ApplyAll(s, calls)) == BindingKeyOf(s.typeData, Some(QualifierOfCall(calls[i])))
  {
    if i < |calls| - 1 {
      LastQualifierWins(s, calls[..|calls| - 1], i);
      assert calls[..|calls| - 1][i] == calls[i];
    }
    BoundTypeFixed(s, calls[..|calls| - 1]);
  }

  /** Without `annotated` or `named` calls the key stays as it was. */
  lemma {:induction false} KeyWithoutQualifierCalls(s: BindingState, calls: seq<Config>)
    requires forall j | 0 <= j < |calls| :: !IsQualifierCall(calls[j])
    ensures KeyOf(ApplyAll(s, calls)) == KeyOf(s)
  {
    if |calls| > 0 {
      KeyWithoutQualifierCalls(s, calls[..|calls| - 1]);
    }
  }

  lemma {:induction false} BoundTypeFixed(s: BindingState, calls: seq<Config>)
    ensures ApplyAll(s, calls).typeData == s.typeData
  {
    if |calls| > 0 {
      BoundTypeFixed(s, calls[..|calls| - 1]);
    }
  }

  /** Whether a call affects which provider the binding ends up with. */
  predicate IsTargetCall(call: Config) {
    !IsQualifierCall(call)
  }

  /**
   * After `to(provider)` or `to(instance)` with only qualifier calls after it, `provider()`
   * returns that provider without building anything; after `scoped` or `to(implementation)`
   * it asks the builder, and a `scoped` call after `to(provider)` leaves it asking with no
   * implementation at all.
   */
  lemma {:induction false} LastTargetDecides(s: BindingState, calls: seq<Config>, i: nat)
    requires i < |calls| && IsTargetCall(calls[i])
    requires forall j | i < j < |calls| :: !IsTargetCall(calls[j])
    ensures var c := ChoiceOf(ApplyAll(s, calls));
            var before := ApplyAll(s, calls[..i]);
            match calls[i]
            case ToProviderCall(p) => c == Explicit(p)
            case ToInstanceCall(v) => c == Explicit(ProviderImpl(v))
            case ToImplementationCall(t) => c == Built(Some(t), before.scope)
            case ScopeCall(sc) => c == Built(before.implementation, Some(sc))
            case _ => false
  {
    if i < |calls| - 1 {
      LastTargetDecides(s, calls[..|calls| - 1], i);
      assert calls[..|calls| - 1][i] == calls[i];
      assert calls[..|calls| - 1][..i] == calls[..i];
    } else {
      assert calls[..|calls| - 1] == calls[..i];
    }
  }

  /** The builder of one `bind` call. */
  class Binding {
    const typeData: TypeData
    var qualifier: Option<Annotation>
    var implementation: Option<TypeData>
    var scope: Option<ClassName>
    var provider: Option<Provider>

    function State(): BindingState
      reads this
    {
      BindingState(typeData, qualifier, implementation, scope, provider)
    }

    constructor (typeData: TypeData)
      ensures State() == NewBinding(typeData)
    {
      this.typeData := typeData;
      this.implementation := Some(typeData);
      qualifier, scope, provider := None, None, None;
    }

    /** `annotated(annotationClass)`, through `annotatedWith`. */
    method Annotate(annotationClass: ClassName)
      modifies this`qualifier
      ensures State() == Apply(old(State()), AnnotateCall(annotationClass))
    {
      qualifier := Some(QualifierFrom(annotationClass));
    }

    /** `named(name)`, through `annotatedWith`. */
    method Name(name: string)
      modifies this`qualifier
      ensures State() == Apply(old(State()), NameCall(name))
    {
      qualifier := Some(QualifierNamed(name));
    }

    /** `scoped(scope)`: clears an explicit provider. */
    method Scope(s: ClassName)
      modifies this`scope, this`provider
      ensures State() == Apply(old(State()), ScopeCall(s))
    {
      scope := Some(s);
      provider := None;
    }

    /** `to(implementation)`: clears an explicit provider, keeps the scope. */
    method ToImplementation(t: TypeData)
      modifies this`implementation, this`provider
      ensures State() == Apply(old(State()), ToImplementationCall(t))
    {
      implementation := Some(t);
      provider := None;
    }

    /** `to(provider)`: clears the scope and the implementation. */
    method ToProvider(p: Provider)
      modifies this`provider, this`scope, this`implementation
      ensures State() == Apply(old(State()), ToProviderCall(p))
    {
      provider := Some(p);
      scope := None;
      implementation := None;
    }

    /** `to(instance)`: a `ProviderImpl` of that instance. */
    method ToInstance(v: Value)
      modifies this`provider, this`scope, this`implementation
      ensures State() == Apply(old(State()), ToInstanceCall(v))
    {
      ToProvider(ProviderImpl(v));
    }

    method Configure(call: Config)
      modifies this`qualifier, this`provider, this`scope, this`implementation
      ensures State() == Apply(old(State()), call)
    {
      match call
      case AnnotateCall(a) => Annotate(a);
      case NameCall(n) => Name(n);
      case ScopeCall(sc) => Scope(sc);
      case ToImplementationCall(t) => ToImplementation(t);
      case ToProviderCall(p) => ToProvider(p);
      case ToInstanceCall(v) => ToInstance(v);
    }

    function Key(): (k: BindingKey)
      reads this`qualifier
      ensures k == KeyOf(State())
    {
      BindingKeyOf(typeData, qualifier)
    }
  }

  // ---- Member injectors

  /** `FieldInjector`: injects one field from the provider its dependency resolves to. */
  class FieldInjector {
    const typeData: TypeData
    const field: FieldInfo
    const forcedAccess: bool
    /** The field's dependency, resolved once in the class table the injector works on. */
    const dependency: Result<Dependency>
    var provider: Option<Provider>

    /** Access is forced unless both the field and its declaring class are public. */
    constructor (ct: ClassTable, fuel: nat, typeData: TypeData, field: FieldInfo)
      requires Valid(ct)
      ensures this.typeData == typeData && this.field == field && provider.None?
      ensures forcedAccess <==> field.mods.access != Public || !IsPublic(ct, Named(field.declaring))
      ensures dependency == FieldDependency(ct, typeData, field, fuel)
    {
      this.typeData := typeData;
      this.field := field;
      this.forcedAccess := field.mods.access != Public || !IsPublic(ct, Named(field.declaring));
      this.dependency := FieldDependency(ct, typeData, field, fuel);
      provider := None;
    }

    /** What `providerCheck` leaves behind: a provider, or none because the dependency is unbound. */
    predicate Checked(bindings: map<BindingKey, Provider>)
      reads this`provider
    {
      || provider.Some?
      || (dependency.Success? && Supply(dependency.value, bindings).None?)
    }

    /**
     * `providerCheck`: nothing once a provider is stored; otherwise the field's dependency,
     * stored as a thunk for a `Provider<X>` field and as the bound provider, or nothing when
     * the key is unbound, for any other field.
     */
    method ProviderCheck(bindings: map<BindingKey, Provider>) returns (r: Result<()>)
      modifies this`provider
      ensures old(provider).Some? ==> provider == old(provider) && r == Success(())
      ensures old(provider).None? ==>
                match dependency
                case Failure(e) => r == Failure(e) && provider.None?
                case Success(d) => r == Success(()) && provider == Supply(d, bindings)
      ensures r.Success? ==> Checked(bindings)
      ensures old(Checked(bindings)) ==> Checked(bindings)
    {
      r := Success(());
      if provider.None? {
        var d :- dependency;
        provider := Supply(d, bindings);
      }
    }

    /**
     * `inject(instance)`: nothing without a provider; otherwise the field of `target` is set
     * to what the provider's `get()` returns.
     */
    method Inject(inj: Injector, target: Value, depth: nat) returns (r: Result<()>)
      requires target.Created? ==> target.id < inj.nextId
      modifies inj`trace, inj`nextId, inj`preDestroy, inj`singletons
      ensures Grows(old(inj.trace), inj.trace, old(inj.preDestroy), inj.preDestroy, old(inj.nextId), inj.nextId, target)
      ensures provider.None? ==>
                r == Success(()) && inj.trace == old(inj.trace) && inj.nextId == old(inj.nextId) && inj.preDestroy == old(inj.preDestroy)
      ensures r.Success? ==>
                InjectionsOf(EventsOf(inj.trace[|old(inj.trace)|..], target), target,
                             if provider.Some? then [FieldMember(field)] else [])
      ensures provider.Some? && Immediate(provider.value, inj.bindings).Some? ==>
                r == Success(())
                && EventsOf(inj.trace[|old(inj.trace)|..], target) == [FieldSet(target, field, Immediate(provider.value, inj.bindings).value)]
      ensures r.Success? && provider.Some? ==>
                |inj.trace| > |old(inj.trace)| && inj.trace[|inj.trace| - 1].FieldSet?
                && inj.trace[|inj.trace| - 1].target == target && inj.trace[|inj.trace| - 1].field == field
      ensures r.Success? && provider.Some? && provider.value.SingletonScoped? ==>
                inj.trace[|inj.trace| - 1].value == CachedIn(inj.singletons, provider.value.serial)
                && inj.trace[|inj.trace| - 1].value != Null
      ensures r.Success? && provider.Some? && provider.value.PrototypeProvider? ==>
                IsNew(inj.trace[|inj.trace| - 1].value, old(inj.nextId), inj.nextId)
      ensures CacheKept(old(inj.singletons), inj.singletons)
      decreases depth, 3
    {
      ghost var t0, h0, n0 := inj.trace, inj.preDestroy, inj.nextId;
      if provider.Some? {
        var got := Obtain(provider.value, inj, depth);
        if got.Failure? {
          ExtendsGrows(t0, inj.trace, h0, inj.preDestroy, n0, inj.nextId, target);
          return Failure(got.error);
        }
        Injected(t0, inj.trace, h0, inj.preDestroy, n0, inj.nextId, FieldSet(target, field, got.value), FieldMember(field));
        inj.trace := inj.trace + [FieldSet(target, field, got.value)];
      } else {
        GrowsRefl(t0, h0, n0, target);
      }
      r := Success(());
    }

    /**
     * `equals`: two field injectors are equal exactly when they inject the same member,
     * whatever their providers or access; `contains` in `addStaticMembers` is this test.
     */
    predicate Equals(other: FieldInjector): (r: bool)
      ensures r <==> FieldInjection(this).Member() == FieldInjection(other).Member()
    {
      field == other.field
    }
  }

  /** What `providerCheck` stores, or throws, for each parameter on its own. */
  function ParamSupplies(ct: ClassTable, types: seq<TypeData>, params: seq<ParamInfo>, bindings: map<BindingKey, Provider>)
    : (r: seq<Result<Option<Provider>>>)
    requires |types| == |params|
    ensures |r| == |params|
    ensures forall k | 0 <= k < |r| :: r[k] == SupplyOf(ct, types[k], params[k].rawType, params[k].annotations, bindings)
  {
    seq(|params|, k requires 0 <= k < |params| => SupplyOf(ct, types[k], params[k].rawType, params[k].annotations, bindings))
  }

  /**
   * The slots the loop of `providerCheck` has filled after the parameters `supplies`, and
   * whether it got past them all: it stops at the first parameter that throws.
   */
  function Slots(supplies: seq<Result<Option<Provider>>>): (r: (seq<Option<Provider>>, Result<()>))
    ensures |r.0| <= |supplies| && (r.1.Success? ==> |r.0| == |supplies|)
  {
    if |supplies| == 0 then ([], Success(()))
    else
      var before := Slots(supplies[..|supplies| - 1]);
      var last := supplies[|supplies| - 1];
      if before.1.Failure? then before
      else if last.Failure? then (before.0, Failure(last.error))
      else (before.0 + [last.value], Success(()))
  }

  /** Once a parameter throws, the later ones are not looked at. */
  lemma {:induction false} SlotsStop(supplies: seq<Result<Option<Provider>>>, i: nat)
    requires i <= |supplies|
    requires Slots(supplies[..i]).1.Failure?
    ensures Slots(supplies) == Slots(supplies[..i])
    decreases |supplies| - i
  {
    if i < |supplies| {
      assert supplies[..|supplies| - 1][..i] == supplies[..i];
      SlotsStop(supplies[..|supplies| - 1], i);
    } else {
      assert supplies[..i] == supplies;
    }
  }

  /** A parameter that succeeds after the others did fills the next slot. */
  lemma SlotsStep(supplies: seq<Result<Option<Provider>>>, i: nat)
    requires i < |supplies| && Slots(supplies[..i]).1.Success? && supplies[i].Success?
    ensures Slots(supplies[..i + 1]) == (Slots(supplies[..i]).0 + [supplies[i].value], Success(()))
  {
    assert supplies[..i + 1][..i] == supplies[..i];
  }

  /** The first parameter that throws decides the outcome of the whole loop. */
  lemma SlotsFailAt(supplies: seq<Result<Option<Provider>>>, i: nat)
    requires i < |supplies| && Slots(supplies[..i]).1.Success? && supplies[i].Failure?
    ensures Slots(supplies) == (Slots(supplies[..i]).0, Failure(supplies[i].error))
  {
    assert supplies[..i + 1][..i] == supplies[..i];
    SlotsStop(supplies, i + 1);
  }

  /**
   * The loop succeeds exactly when every parameter does, and then slot `k` holds parameter
   * `k`'s provider; otherwise the slots before the first parameter that throws are filled and
   * the outcome is its exception.
   */
  lemma {:induction false} SlotsCharacterised(supplies: seq<Result<Option<Provider>>>)
    ensures var r := Slots(supplies);
            && (r.1.Success? <==> forall k | 0 <= k < |supplies| :: supplies[k].Success?)
            && (forall k | 0 <= k < |r.0| :: supplies[k].Success? && r.0[k] == supplies[k].value)
            && (r.1.Failure? ==> |r.0| < |supplies| && supplies[|r.0|] == Failure(r.1.error))
  {
    if |supplies| > 0 {
      var init := supplies[..|supplies| - 1];
      SlotsCharacterised(init);
      assert forall k | 0 <= k < |init| :: init[k] == supplies[k];
    }
  }

  /** `ExecutableInjector`: the per-parameter providers of a constructor or a method. */
  class ExecutableInjector {
    const typeData: TypeData
    const executable: Executable
    const forcedAccess: bool
    var providers: array?<Option<Provider>>

    /** Access is forced unless both the declaring class and the executable are public. */
    constructor (ct: ClassTable, typeData: TypeData, executable: Executable)
      ensures this.typeData == typeData && this.executable == executable && providers == null
      ensures forcedAccess <==> !IsPublic(ct, Named(executable.Declaring())) || executable.Modifiers().access != Public
    {
      this.typeData := typeData;
      this.executable := executable;
      this.forcedAccess := !IsPublic(ct, Named(executable.Declaring())) || executable.Modifiers().access != Public;
      providers := null;
    }

    /**
     * The slots the loop of `providerCheck` fills and its outcome, once the parameter types
     * are resolved; or the exception resolving them throws.
     */
    function ArgumentSlots(ct: ClassTable, fuel: nat, bindings: map<BindingKey, Provider>): Result<(seq<Option<Provider>>, Result<()>)>
      requires Valid(ct)
    {
      var types :- GetParameterTypes(ct, typeData, executable, fuel);
      Success(Slots(ParamSupplies(ct, types, executable.Params(), bindings)))
    }

    /**
     * `providerCheck`: nothing once the array exists; otherwise the parameter types are
     * resolved, the array is allocated with one slot per parameter, and the slots are filled
     * in order.  A parameter that throws leaves the array allocated and partly filled.
     */
    method ProviderCheck(ct: ClassTable, fuel: nat, bindings: map<BindingKey, Provider>) returns (r: Result<()>)
      requires Valid(ct)
      modifies this`providers
      ensures old(providers) != null ==> providers == old(providers) && r == Success(())
      ensures old(providers) == null ==>
                match ArgumentSlots(ct, fuel, bindings)
                case Failure(e) => r == Failure(e) && providers == null
                case Success(s) =>
                  && providers != null && fresh(providers) && providers.Length == |executable.Params()|
                  && r == s.1 && providers[..] == s.0 + Repeat(None, providers.Length - |s.0|)
    {
      r := Success(());
      if providers == null {
        var parameters := executable.Params();
        var parameterTypes :- GetParameterTypes(ct, typeData, executable, fuel);
        assert ArgumentSlots(ct, fuel, bindings) == Success(Slots(ParamSupplies(ct, parameterTypes, parameters, bindings)));
        var slots, filled := NewSlots(ct, parameterTypes, parameters, bindings);
        providers := slots;
        r := filled;
      }
    }

    /**
     * `injectArgs()`: one argument per slot, what the slot's provider hands out, or null for
     * an empty slot; `NullPointerException` when `providerCheck` never ran.
     */
    method InjectArgs(inj: Injector, depth: nat) returns (r: Result<seq<Value>>)
      modifies inj`trace, inj`nextId, inj`preDestroy, inj`singletons
      ensures Extends(old(inj.trace), inj.trace, old(inj.preDestroy), inj.preDestroy, old(inj.nextId), inj.nextId)
      ensures providers == null ==> r == Failure(NullPointer)
      ensures r.Success? ==> providers != null && |r.value| == providers.Length
      ensures r.Success? ==> forall i | 0 <= i < |r.value| :: ArgumentFrom(r.value[i], providers[i], inj.bindings)
      ensures r.Success? ==> forall i | 0 <= i < |r.value| && providers[i].Some? && providers[i].value.SingletonScoped? ::
                r.value[i] == CachedIn(inj.singletons, providers[i].value.serial) && r.value[i] != Null
      ensures r.Success? ==> forall i | 0 <= i < |r.value| && providers[i].Some? && providers[i].value.PrototypeProvider? ::
                IsNew(r.value[i], old(inj.nextId), inj.nextId)
      ensures CacheKept(old(inj.singletons), inj.singletons)
      decreases depth, 2
    {
      ghost var t0, h0, n0 := inj.trace, inj.preDestroy, inj.nextId;
      GrowsRefl(t0, h0, n0, Null);
      if providers == null {
        return Failure(NullPointer);
      }
      var slots := providers;
      var args := new Value[slots.Length](_ => Null);
      for i := 0 to slots.Length
        invariant Extends(t0, inj.trace, h0, inj.preDestroy, n0, inj.nextId)
        invariant forall k | 0 <= k < i :: ArgumentFrom(args[k], slots[k], inj.bindings)
        invariant CacheKept(old(inj.singletons), inj.singletons)
        invariant forall k | 0 <= k < i && slots[k].Some? && slots[k].value.SingletonScoped? ::
                    args[k] == CachedIn(inj.singletons, slots[k].value.serial) && args[k] != Null
        invariant forall k | 0 <= k < i && slots[k].Some? && slots[k].value.PrototypeProvider? ::
                    IsNew(args[k], old(inj.nextId), inj.nextId)
        invariant old(inj.nextId) <= inj.nextId
      {
        if slots[i].Some? {
          ghost var t1, h1, n1 := inj.trace, inj.preDestroy, inj.nextId;
          var got := Obtain(slots[i].value, inj, depth);
          ExtendsTrans(t0, t1, inj.trace, h0, h1, inj.preDestroy, n0, n1, inj.nextId);
          if got.Failure? {
            return Failure(got.error);
          }
          args[i] := got.value;
        } else {
          args[i] := Null;
        }
      }
      r := Success(args[..]);
    }
  }

  /** The array of `providerCheck`, allocated and then filled by its loop. */
  method NewSlots(ct: ClassTable, types: seq<TypeData>, params: seq<ParamInfo>, bindings: map<BindingKey, Provider>)
    returns (slots: array<Option<Provider>>, r: Result<()>)
    requires |types| == |params|
    ensures fresh(slots) && slots.Length == |params|
    ensures var s := Slots(ParamSupplies(ct, types, params, bindings));
            r == s.1 && slots[..] == s.0 + Repeat(None, slots.Length - |s.0|)
  {
    slots := NoSlots(|params|);
    r := FillSlots(slots, ct, types, params, bindings);
  }

  /** `new Provider[n]`: every slot empty. */
  method NoSlots(n: nat) returns (slots: array<Option<Provider>>)
    ensures fresh(slots) && slots.Length == n && slots[..] == Repeat(None, n)
  {
    slots := new Option<Provider>[n](_ => None);
  }

  /**
   * The loop of `providerCheck` over the parameters, into the freshly allocated `slots`: it
   * stores each parameter's provider in turn and stops at the first parameter that throws.
   */
  method FillSlots(slots: array<Option<Provider>>, ct: ClassTable, types: seq<TypeData>, params: seq<ParamInfo>,
                   bindings: map<BindingKey, Provider>) returns (r: Result<()>)
    requires |types| == |params| == slots.Length
    requires slots[..] == Repeat(None, slots.Length)
    modifies slots
    ensures var s := Slots(ParamSupplies(ct, types, params, bindings));
            r == s.1 && slots[..] == s.0 + Repeat(None, slots.Length - |s.0|)
  {
    ghost var supplies := ParamSupplies(ct, types, params, bindings);
    ghost var filled: seq<Option<Provider>> := [];
    assert slots[..] == filled + Repeat(None, slots.Length - 0);
    for i := 0 to |params|
      invariant Slots(supplies[..i]) == (filled, Success(())) && |filled| == i
      invariant slots[..] == filled + Repeat(None, slots.Length - i)
    {
      var parameter := params[i];
      var supplied := CheckDependency(ct, types[i], parameter.rawType, parameter.annotations, bindings);
      if supplied.Failure? {
        SlotsFailAt(supplies, i);
        return Failure(supplied.error);
      }
      SlotsStep(supplies, i);
      StoreSlot(slots, i, filled, supplied.value);
      filled := filled + [supplied.value];
    }
    assert supplies[..|params|] == supplies;
    r := Success(());
  }

  /** Storing into the first empty slot. */
  method StoreSlot(slots: array<Option<Provider>>, i: nat, ghost filled: seq<Option<Provider>>, x: Option<Provider>)
    requires i == |filled| < slots.Length && slots[..] == filled + Repeat(None, slots.Length - i)
    modifies slots
    ensures slots[..] == (filled + [x]) + Repeat(None, slots.Length - i - 1)
  {
    slots[i] := x;
    FillOne(filled, x, slots.Length - |filled|);
  }

  /** Filling the first empty slot. */
  lemma FillOne<T>(filled: seq<Option<T>>, x: Option<T>, n: nat)
    requires n > 0
    ensures (filled + Repeat(None, n))[|filled| := x] == (filled + [x]) + Repeat(None, n - 1)
  {
    assert Repeat<Option<T>>(None, n) == Repeat(None, n - 1) + [None];
  }


  /** `MemberInjector`: a `FieldInjector` or a `MethodInjector` over one method. */
  datatype MemberInjector =
    | FieldInjection(fieldInjector: FieldInjector)
    | MethodInjection(methodInfo: MethodInfo, argumentInjector: ExecutableInjector)
  {
    /** The member injected, which also decides `equals`, `getDeclaringClass` and `isField`. */
    function Member(): Member {
      if FieldInjection? then FieldMember(fieldInjector.field) else MethodMember(methodInfo)
    }

    /** The injector object, whose providers `providerCheck` fills. */
    function Underlying(): object {
      if FieldInjection? then fieldInjector else argumentInjector
    }
  }

  function UnderlyingOf(injectors: seq<MemberInjector>): set<object> {
    set m | m in injectors :: m.Underlying()
  }

  /** The field injectors among `injectors`, whose `provider` `providerCheck` may set. */
  function FieldInjectorsOf(injectors: seq<MemberInjector>): set<FieldInjector> {
    set m | m in injectors && m.FieldInjection? :: m.fieldInjector
  }

  /** The method injectors' executable injectors among `injectors`, whose `providers` `providerCheck` may set. */
  function ArgumentInjectorsOf(injectors: seq<MemberInjector>): set<ExecutableInjector> {
    set m | m in injectors && m.MethodInjection? :: m.argumentInjector
  }

  /** Every injector of `injectors` beyond those of `injectors0` was made by the current call. */
  twostate predicate NewSince(new injectors: seq<MemberInjector>, injectors0: seq<MemberInjector>) {
    forall m | m in injectors && m !in injectors0 :: fresh(m.Underlying())
  }

  function MembersOf(injectors: seq<MemberInjector>): (r: seq<Member>)
    ensures |r| == |injectors| && forall k | 0 <= k < |r| :: r[k] == injectors[k].Member()
  {
    seq(|injectors|, k requires 0 <= k < |injectors| => injectors[k].Member())
  }

  lemma MembersOfSnoc(injectors: seq<MemberInjector>, m: MemberInjector)
    ensures MembersOf(injectors + [m]) == MembersOf(injectors) + [m.Member()]
  {
  }

  // ---- The trace of reflective effects

  /** The events of `events` that concern the object `v`, in order. */
  function EventsOf(events: seq<Event>, v: Value): (r: seq<Event>)
    ensures |r| <= |events|
    ensures forall k | 0 <= k < |r| :: r[k].target == v
  {
    if |events| == 0 then []
    else EventsOf(events[..|events| - 1], v) + (if events[|events| - 1].target == v then [events[|events| - 1]] else [])
  }

  lemma {:induction false} EventsOfAppend(xs: seq<Event>, ys: seq<Event>, v: Value)
    ensures EventsOf(xs + ys, v) == EventsOf(xs, v) + EventsOf(ys, v)
    decreases |ys|
  {
    if |ys| > 0 {
      assert (xs + ys)[..|xs + ys| - 1] == xs + ys[..|ys| - 1];
      EventsOfAppend(xs, ys[..|ys| - 1], v);
    } else {
      assert xs + ys == xs;
    }
  }

  /** Whether `v` is an object allocated with a number in `[lo, hi)`. */
  predicate IsNew(v: Value, lo: nat, hi: nat) {
    v.Created? && lo <= v.id < hi
  }

  /** Every event in `events` concerns `v` or an object allocated with a number in `[lo, hi)`. */
  predicate AllNewOr(events: seq<Event>, lo: nat, hi: nat, v: Value) {
    forall k | 0 <= k < |events| :: events[k].target == v || IsNew(events[k].target, lo, hi)
  }

  /** Every hook in `hooks` concerns an object allocated with a number in `[lo, hi)`. */
  predicate HooksNew(hooks: seq<Hook>, lo: nat, hi: nat) {
    forall k | 0 <= k < |hooks| :: IsNew(hooks[k].instance, lo, hi)
  }

  /** Events about `w` and about objects allocated in `[lo, hi)` are none about any other `v`. */
  lemma {:induction false} EventsOfNew(events: seq<Event>, lo: nat, hi: nat, v: Value, w: Value)
    requires AllNewOr(events, lo, hi, w)
    requires !IsNew(v, lo, hi) && v != w
    ensures EventsOf(events, v) == []
    decreases |events|
  {
    if |events| > 0 {
      EventsOfNew(events[..|events| - 1], lo, hi, v, w);
    }
  }

  /**
   * From the trace `t0`, the teardown list `h0` and the allocation counter `n0` to `t1`, `h1`
   * and `n1`: the counter only grows, the trace only gains events, each about `v` or about an
   * object allocated in between, and the teardown list only gains hooks at its front, each
   * about an object allocated in between.
   */
  predicate Grows(t0: seq<Event>, t1: seq<Event>, h0: seq<Hook>, h1: seq<Hook>, n0: nat, n1: nat, v: Value) {
    var traceGrows := n0 <= n1 && t0 <= t1 && AllNewOr(t1[|t0|..], n0, n1, v);
    var hooksGrow := |h0| <= |h1| && h1[|h1| - |h0|..] == h0 && HooksNew(h1[..|h1| - |h0|], n0, n1);
    traceGrows && hooksGrow
  }

  /** `Grows` with every new event about a newly allocated object. */
  predicate Extends(t0: seq<Event>, t1: seq<Event>, h0: seq<Hook>, h1: seq<Hook>, n0: nat, n1: nat) {
    var grows := Grows(t0, t1, h0, h1, n0, n1, Null);
    grows && EventsOf(t1[|t0|..], Null) == []
  }

  /** No event concerns `w` exactly when none of `events` has `w` as its target. */
  lemma {:induction false} EventsOfEmpty(events: seq<Event>, w: Value)
    ensures EventsOf(events, w) == [] <==> forall k | 0 <= k < |events| :: events[k].target != w
    decreases |events|
  {
    if |events| > 0 {
      EventsOfEmpty(events[..|events| - 1], w);
      assert forall k | 0 <= k < |events| - 1 :: events[..|events| - 1][k] == events[k];
    }
  }

  lemma AllNewOrAppend(a: seq<Event>, b: seq<Event>, n0: nat, n1: nat, n2: nat, v: Value)
    requires n0 <= n1 <= n2 && AllNewOr(a, n0, n1, v) && AllNewOr(b, n1, n2, v)
    ensures AllNewOr(a + b, n0, n2, v)
  {
    forall k | 0 <= k < |a + b|
      ensures (a + b)[k].target == v || IsNew((a + b)[k].target, n0, n2)
    {
      if k < |a| {
        assert (a + b)[k] == a[k];
      } else {
        assert (a + b)[k] == b[k - |a|];
      }
    }
  }

  lemma HooksNewAppend(a: seq<Hook>, b: seq<Hook>, n0: nat, n1: nat, n2: nat)
    requires n0 <= n1 <= n2 && HooksNew(a, n1, n2) && HooksNew(b, n0, n1)
    ensures HooksNew(a + b, n0, n2)
  {
    forall k | 0 <= k < |a + b|
      ensures IsNew((a + b)[k].instance, n0, n2)
    {
      if k < |a| {
        assert (a + b)[k] == a[k];
      } else {
        assert (a + b)[k] == b[k - |a|];
      }
    }
  }

  lemma GrowsRefl(t: seq<Event>, h: seq<Hook>, n: nat, v: Value)
    ensures Grows(t, t, h, h, n, n, v) && Extends(t, t, h, h, n, n)
    ensures EventsOf(t[|t|..], v) == []
  {
    assert t[|t|..] == [];
    assert h[..0] == [];
    assert h[|h| - |h|..] == h;
  }

  /** Two stretches of growth about `v`: the events about `v` add up. */
  lemma GrowsTrans(t0: seq<Event>, t1: seq<Event>, t2: seq<Event>, h0: seq<Hook>, h1: seq<Hook>, h2: seq<Hook>,
                   n0: nat, n1: nat, n2: nat, v: Value)
    requires Grows(t0, t1, h0, h1, n0, n1, v) && Grows(t1, t2, h1, h2, n1, n2, v)
    ensures Grows(t0, t2, h0, h2, n0, n2, v)
    ensures EventsOf(t2[|t0|..], v) == EventsOf(t1[|t0|..], v) + EventsOf(t2[|t1|..], v)
  {
    assert t2[|t0|..] == t1[|t0|..] + t2[|t1|..];
    AllNewOrAppend(t1[|t0|..], t2[|t1|..], n0, n1, n2, v);
    assert h2[..|h2| - |h0|] == h2[..|h2| - |h1|] + h1[..|h1| - |h0|];
    HooksNewAppend(h2[..|h2| - |h1|], h1[..|h1| - |h0|], n0, n1, n2);
    assert h2[|h2| - |h0|..] == h2[|h2| - |h1|..][|h1| - |h0|..];
    EventsOfAppend(t1[|t0|..], t2[|t1|..], v);
  }

  /** Growth about new objects only is growth about any `v`, with no event about `v`. */
  lemma ExtendsGrows(t0: seq<Event>, t1: seq<Event>, h0: seq<Hook>, h1: seq<Hook>, n0: nat, n1: nat, v: Value)
    requires Extends(t0, t1, h0, h1, n0, n1) && !IsNew(v, n0, n1)
    ensures Grows(t0, t1, h0, h1, n0, n1, v) && EventsOf(t1[|t0|..], v) == []
  {
    EventsOfEmpty(t1[|t0|..], Null);
    if v != Null {
      EventsOfNew(t1[|t0|..], n0, n1, v, Null);
    }
  }

  /** A nested build, then growth about `v`, which is not one of the nested build's objects. */
  lemma GrowsAfter(t0: seq<Event>, t1: seq<Event>, t2: seq<Event>, h0: seq<Hook>, h1: seq<Hook>, h2: seq<Hook>,
                   n0: nat, n1: nat, n2: nat, v: Value)
    requires Extends(t0, t1, h0, h1, n0, n1) && Grows(t1, t2, h1, h2, n1, n2, v)
    requires !IsNew(v, n0, n1)
    ensures Grows(t0, t2, h0, h2, n0, n2, v)
    ensures EventsOf(t2[|t0|..], v) == EventsOf(t2[|t1|..], v)
  {
    ExtendsGrows(t0, t1, h0, h1, n0, n1, v);
    GrowsTrans(t0, t1, t2, h0, h1, h2, n0, n1, n2, v);
  }

  /** Two stretches of growth about new objects only. */
  lemma ExtendsTrans(t0: seq<Event>, t1: seq<Event>, t2: seq<Event>, h0: seq<Hook>, h1: seq<Hook>, h2: seq<Hook>,
                     n0: nat, n1: nat, n2: nat)
    requires Extends(t0, t1, h0, h1, n0, n1) && Extends(t1, t2, h1, h2, n1, n2)
    ensures Extends(t0, t2, h0, h2, n0, n2)
  {
    GrowsTrans(t0, t1, t2, h0, h1, h2, n0, n1, n2, Null);
  }

  /** One event about `e.target` at the end of the trace. */
  lemma GrowsByEvent(t: seq<Event>, h: seq<Hook>, n: nat, e: Event)
    ensures Grows(t, t + [e], h, h, n, n, e.target)
    ensures EventsOf((t + [e])[|t|..], e.target) == [e]
  {
    assert (t + [e])[|t|..] == [e];
    assert [e][..0] == [];
    assert h[..0] == [];
    assert h[|h| - |h|..] == h;
  }

  /** A teardown hook about an object allocated in the range. */
  lemma GrowsByHook(t0: seq<Event>, t1: seq<Event>, h0: seq<Hook>, h1: seq<Hook>, n0: nat, n1: nat, v: Value, hook: Hook)
    requires Grows(t0, t1, h0, h1, n0, n1, v) && IsNew(hook.instance, n0, n1)
    ensures Grows(t0, t1, h0, [hook] + h1, n0, n1, v)
  {
    assert ([hook] + h1)[..|[hook] + h1| - |h0|] == [hook] + h1[..|h1| - |h0|];
    assert ([hook] + h1)[|[hook] + h1| - |h0|..] == h1[|h1| - |h0|..];
  }

  /** Growth about an object allocated in the range counts as growth about new objects only. */
  lemma GrowsAboutNew(t0: seq<Event>, t1: seq<Event>, h0: seq<Hook>, h1: seq<Hook>, n0: nat, n1: nat, v: Value)
    requires Grows(t0, t1, h0, h1, n0, n1, v) && IsNew(v, n0, n1)
    ensures Extends(t0, t1, h0, h1, n0, n1)
  {
    EventsOfNew(t1[|t0|..], n0, n1, Null, v);
  }

  // ---- What a provider hands out

  /**
   * What `get()` returns for a provider that builds nothing: the instance of a `ProviderImpl`,
   * the value of a module's provider, and for a `Provider<X>` thunk the provider bound to its
   * key, or null when the key is unbound.
   */
  function Immediate(p: Provider, bindings: map<BindingKey, Provider>): Option<Value> {
    match p
    case ProviderImpl(v) => Some(v)
    case UserProvider(_, v) => Some(v)
    case Deferred(key) => Some(if key in bindings then ProviderValue(bindings[key]) else Null)
    case _ => None
  }

  /** The event that injects member `m` into `target`. */
  predicate EventFor(e: Event, target: Value, m: Member) {
    match m
    case FieldMember(f) => e.FieldSet? && e.target == target && e.field == f
    case MethodMember(mi) => e.Invoked? && e.target == target && e.methodInfo == mi
  }

  /** `events` are, one for one and in order, the injections of the members `ms` into `target`. */
  predicate InjectionsOf(events: seq<Event>, target: Value, ms: seq<Member>) {
    |events| == |ms| && forall k | 0 <= k < |ms| :: EventFor(events[k], target, ms[k])
  }

  lemma InjectionsOfAppend(e1: seq<Event>, e2: seq<Event>, target: Value, m1: seq<Member>, m2: seq<Member>)
    requires InjectionsOf(e1, target, m1) && InjectionsOf(e2, target, m2)
    ensures InjectionsOf(e1 + e2, target, m1 + m2)
  {
    assert forall k | |e1| <= k < |e1| + |e2| :: (e1 + e2)[k] == e2[k - |e1|] && (m1 + m2)[k] == m2[k - |m1|];
  }

  /** After a nested build, the injection `e` of member `m` into an object that build did not make. */
  lemma Injected(t0: seq<Event>, t1: seq<Event>, h0: seq<Hook>, h1: seq<Hook>, n0: nat, n1: nat, e: Event, m: Member)
    requires Extends(t0, t1, h0, h1, n0, n1) && !IsNew(e.target, n0, n1) && EventFor(e, e.target, m)
    ensures Grows(t0, t1 + [e], h0, h1, n0, n1, e.target)
    ensures EventsOf((t1 + [e])[|t0|..], e.target) == [e] && InjectionsOf([e], e.target, [m])
  {
    GrowsByEvent(t1, h1, n1, e);
    GrowsAfter(t0, t1, t1 + [e], h0, h1, h1, n0, n1, n1, e.target);
  }

  /**
   * The life of an instance `v` built with `ctor`: its construction with one argument per
   * parameter, then the injection of the members `ms`, then the post-construct call, if any.
   */
  predicate BuiltAs(events: seq<Event>, v: Value, ctor: CtorInfo, ms: seq<Member>, post: Option<MethodInfo>) {
    && |events| == 1 + |ms| + (if post.Some? then 1 else 0)
    && events[0].Constructed? && events[0].target == v && events[0].ctor == ctor
    && InjectionsOf(events[1..1 + |ms|], v, ms)
    && (post.Some? ==> events[1 + |ms|] == PostConstructed(v, post.value))
  }

  /** Whether injecting `m` has an effect: a field injector without a provider does nothing. */
  predicate Emits(m: MemberInjector)
    reads (if m.FieldInjection? then {m.fieldInjector} else {})`provider
  {
    m.FieldInjection? ==> m.fieldInjector.provider.Some?
  }

  /** The injection `m` performs, or none. */
  function Emitted1(m: MemberInjector): seq<Member>
    reads (if m.FieldInjection? then {m.fieldInjector} else {})`provider
  {
    if Emits(m) then [m.Member()] else []
  }

  /** The members whose injection has an effect, in the order of `injectors`. */
  function Emitting(injectors: seq<MemberInjector>): seq<Member>
    reads (set m | m in injectors && m.FieldInjection? :: m.fieldInjector)`provider
  {
    if |injectors| == 0 then []
    else
      Emitting(injectors[..|injectors| - 1]) + Emitted1(injectors[|injectors| - 1])
  }

  lemma EmittingStep(injectors: seq<MemberInjector>, i: nat)
    requires i < |injectors|
    ensures Emitting(injectors[..i + 1]) == Emitting(injectors[..i]) + Emitted1(injectors[i])
  {
    assert injectors[..i + 1][..i] == injectors[..i];
  }

  // ---- Providers of instances

  /** `InstanceProvider`: builds an instance with its injectors and registers its teardown hook. */
  class InstanceProvider {
    const typeData: TypeData
    const ctor: CtorInfo
    const constructorInjector: ExecutableInjector
    const staticMemberInjectors: seq<MemberInjector>
    const memberInjectors: seq<MemberInjector>
    const postConstruct: Option<MethodInfo>
    const preDestroy: Option<MethodInfo>
    /** Whether `setAccessible(true)` is called on a hook. */
    const postConstructForced: bool
    const preDestroyForced: bool

    constructor (typeData: TypeData, ctor: CtorInfo, constructorInjector: ExecutableInjector,
                 staticMemberInjectors: seq<MemberInjector>, memberInjectors: seq<MemberInjector>,
                 postConstruct: Option<MethodInfo>, preDestroy: Option<MethodInfo>,
                 postConstructForced: bool, preDestroyForced: bool)
      ensures this.typeData == typeData && this.ctor == ctor && this.constructorInjector == constructorInjector
      ensures this.staticMemberInjectors == staticMemberInjectors && this.memberInjectors == memberInjectors
      ensures this.postConstruct == postConstruct && this.preDestroy == preDestroy
      ensures this.postConstructForced == postConstructForced && this.preDestroyForced == preDestroyForced
    {
      this.typeData := typeData;
      this.ctor := ctor;
      this.constructorInjector := constructorInjector;
      this.staticMemberInjectors := staticMemberInjectors;
      this.memberInjectors := memberInjectors;
      this.postConstruct := postConstruct;
      this.preDestroy := preDestroy;
      this.postConstructForced := postConstructForced;
      this.preDestroyForced := preDestroyForced;
    }

    /** The field injectors whose provider `initProviders` fills. */
    function Fields(): set<FieldInjector> {
      FieldInjectorsOf(memberInjectors) + FieldInjectorsOf(staticMemberInjectors)
    }

    /** The executable injectors whose providers `initProviders` fills. */
    function Arguments(): set<ExecutableInjector> {
      {constructorInjector} + ArgumentInjectorsOf(memberInjectors) + ArgumentInjectorsOf(staticMemberInjectors)
    }

    /**
     * `initProviders()`: `providerCheck` on the constructor injector, then on each instance
     * member injector in order, then the static member injectors go to `addStaticMembers`
     * once.  On success all of them are ready; static members the injector held before stay
     * ready whatever happens.
     */
    method InitProviders(inj: Injector) returns (r: Result<()>, ghost added: seq<MemberInjector>)
      requires Valid(inj.ct)
      modifies Fields()`provider, Arguments()`providers, inj`staticMembers
      ensures inj.staticMembers == old(inj.staticMembers) + added
      ensures r.Success? ==>
                MembersOf(inj.staticMembers) == AddNew(MembersOf(old(inj.staticMembers)), MembersOf(staticMemberInjectors))
      ensures r.Success? ==> constructorInjector.providers != null
      ensures r.Success? ==> AllReady(memberInjectors, inj.bindings)
      ensures r.Success? ==> AllReady(added, inj.bindings)
      ensures KeptReady(old(inj.staticMembers), inj.bindings)
    {
      added := [];
      ghost var held := inj.staticMembers;
      r := CheckConstructor(constructorInjector, inj.ct, inj.fuel, inj.bindings, held);
      if r.Failure? {
        return;
      }
      r := CheckAll(memberInjectors, inj.ct, inj.fuel, inj.bindings, held, constructorInjector);
      if r.Failure? {
        return;
      }
      r, added := inj.AddStaticMembers(staticMemberInjectors, memberInjectors, constructorInjector);
    }

    /**
     * `get()`: the constructor injector builds the instance, the instance member injectors
     * run in order, then the post-construct hook, and a teardown hook is registered when there
     * is a pre-destroy method.  The instance is new; the events about it are its construction,
     * one injection per member injector that has something to inject, in order, and the
     * post-construct call; its teardown hook is the first one registered.  A constructor of
     * an abstract class never builds: `newInstance` throws `InstantiationException`.
     */
    method Get(inj: Injector, depth: nat) returns (r: Result<Value>)
      modifies inj`trace, inj`nextId, inj`preDestroy, inj`singletons
      ensures Extends(old(inj.trace), inj.trace, old(inj.preDestroy), inj.preDestroy, old(inj.nextId), inj.nextId)
      ensures CacheKept(old(inj.singletons), inj.singletons)
      ensures Info(inj.ct, ctor.declaring).isAbstract ==> r.Failure?
      ensures r.Success? ==> IsNew(r.value, old(inj.nextId), inj.nextId)
      ensures r.Success? ==> BuiltAs(EventsOf(inj.trace[|old(inj.trace)|..], r.value), r.value, ctor,
                                     Emitting(memberInjectors), postConstruct)
      ensures r.Success? && preDestroy.Some? ==> |inj.preDestroy| > 0 && inj.preDestroy[0] == Hook(r.value, preDestroy.value)
      decreases depth, 7
    {
      ghost var t0, h0, n0 := inj.trace, inj.preDestroy, inj.nextId;
      var args := constructorInjector.InjectArgs(inj, depth);
      if args.Failure? {
        return Failure(args.error);
      }
      ghost var t1, h1, n1 := inj.trace, inj.preDestroy, inj.nextId;
      r := Build(inj, args.value, depth);
      if r.Success? {
        BuiltAfter(t0, t1, inj.trace, h0, h1, inj.preDestroy, n0, n1, inj.nextId, r.value);
      } else {
        ExtendsTrans(t0, t1, inj.trace, h0, h1, inj.preDestroy, n0, n1, inj.nextId);
      }
    }

    /**
     * The rest of `get()` once the constructor arguments `args` are built: construction, the
     * instance member injectors, the post-construct hook and the teardown hook.
     */
    method Build(inj: Injector, args: seq<Value>, depth: nat) returns (r: Result<Value>)
      modifies inj`trace, inj`nextId, inj`preDestroy, inj`singletons
      ensures Extends(old(inj.trace), inj.trace, old(inj.preDestroy), inj.preDestroy, old(inj.nextId), inj.nextId)
      ensures CacheKept(old(inj.singletons), inj.singletons)
      ensures Info(inj.ct, ctor.declaring).isAbstract ==>
                r == Failure(InstantiationFailed) && inj.trace == old(inj.trace) && inj.nextId == old(inj.nextId)
                && inj.preDestroy == old(inj.preDestroy) && inj.singletons == old(inj.singletons)
      ensures r.Success? ==> IsNew(r.value, old(inj.nextId), inj.nextId)
      ensures r.Success? ==> BuiltAs(EventsOf(inj.trace[|old(inj.trace)|..], r.value), r.value, ctor,
                                     Emitting(memberInjectors), postConstruct)
      ensures r.Success? && preDestroy.Some? ==> |inj.preDestroy| > 0 && inj.preDestroy[0] == Hook(r.value, preDestroy.value)
      decreases depth, 6
    {
      ghost var t1, h1, n1 := inj.trace, inj.preDestroy, inj.nextId;
      GrowsRefl(t1, h1, n1, Null);
      if Info(inj.ct, ctor.declaring).isAbstract {
        return Failure(InstantiationFailed);
      }
      var instance := inj.Construct(ctor, args);
      var injected := InjectMembers(memberInjectors, inj, instance, depth);
      ghost var t2, h2, n2 := inj.trace, inj.preDestroy, inj.nextId;
      PartialBuild(t1, t1, t2, h1, h1, h2, n1, n1, n2, Constructed(instance, ctor, args));
      if injected.Failure? {
        return Failure(injected.error);
      }
      ghost var injections := Emitting(memberInjectors);
      if postConstruct.Some? {
        inj.Record(PostConstructed(instance, postConstruct.value));
      }
      if preDestroy.Some? {
        inj.AddPreDestroy(Hook(instance, preDestroy.value));
      }
      BuildComplete(t1, t1, t2, inj.trace, h1, h2, inj.preDestroy, n1, n1, n2, Constructed(instance, ctor, args),
                    injections, postConstruct, preDestroy);
      assert Emitting(memberInjectors) == injections;
      r := Success(instance);
    }
  }

  /** A build after a nested build: the events about the new object are those of the build. */
  lemma BuiltAfter(t0: seq<Event>, t1: seq<Event>, t2: seq<Event>, h0: seq<Hook>, h1: seq<Hook>, h2: seq<Hook>,
                   n0: nat, n1: nat, n2: nat, v: Value)
    requires Extends(t0, t1, h0, h1, n0, n1) && Extends(t1, t2, h1, h2, n1, n2) && IsNew(v, n1, n2)
    ensures Extends(t0, t2, h0, h2, n0, n2) && IsNew(v, n0, n2)
    ensures EventsOf(t2[|t0|..], v) == EventsOf(t2[|t1|..], v)
  {
    ExtendsTrans(t0, t1, t2, h0, h1, h2, n0, n1, n2);
    ExtendsGrows(t0, t1, h0, h1, n0, n1, v);
    assert t2[|t0|..] == t1[|t0|..] + t2[|t1|..];
    EventsOfAppend(t1[|t0|..], t2[|t1|..], v);
  }

  /**
   * The member injectors `injectors` run in order on `target`: the events about `target` are
   * one injection per injector that has something to inject, in order.
   */
  method InjectMembers(injectors: seq<MemberInjector>, inj: Injector, target: Value, depth: nat) returns (r: Result<()>)
    requires target.Created? ==> target.id < inj.nextId
    modifies inj`trace, inj`nextId, inj`preDestroy, inj`singletons
    ensures Grows(old(inj.trace), inj.trace, old(inj.preDestroy), inj.preDestroy, old(inj.nextId), inj.nextId, target)
    ensures r.Success? ==> InjectionsOf(EventsOf(inj.trace[|old(inj.trace)|..], target), target, Emitting(injectors))
    ensures CacheKept(old(inj.singletons), inj.singletons)
    decreases depth, 5
  {
    ghost var t0, h0, n0 := inj.trace, inj.preDestroy, inj.nextId;
    GrowsRefl(t0, h0, n0, target);
    for i := 0 to |injectors|
      invariant Grows(t0, inj.trace, h0, inj.preDestroy, n0, inj.nextId, target)
      invariant InjectionsOf(EventsOf(inj.trace[|t0|..], target), target, Emitting(injectors[..i]))
      invariant CacheKept(old(inj.singletons), inj.singletons)
    {
      ghost var t1, h1, n1 := inj.trace, inj.preDestroy, inj.nextId;
      ghost var before := Emitting(injectors[..i]);
      var done := InjectMember(injectors[i], inj, target, depth);
      assert Emitting(injectors[..i]) == before;
      if done.Failure? {
        GrowsTrans(t0, t1, inj.trace, h0, h1, inj.preDestroy, n0, n1, inj.nextId, target);
        return Failure(done.error);
      }
      InjectedNext(t0, t1, inj.trace, h0, h1, inj.preDestroy, n0, n1, inj.nextId, target, injectors, i);
    }
    assert injectors[..|injectors|] == injectors;
    r := Success(());
  }

  /** One more member injector has run on `v`. */
  lemma InjectedNext(t0: seq<Event>, t1: seq<Event>, t2: seq<Event>, h0: seq<Hook>, h1: seq<Hook>, h2: seq<Hook>,
                     n0: nat, n1: nat, n2: nat, v: Value, injectors: seq<MemberInjector>, i: nat)
    requires i < |injectors| && Grows(t0, t1, h0, h1, n0, n1, v) && Grows(t1, t2, h1, h2, n1, n2, v)
    requires InjectionsOf(EventsOf(t1[|t0|..], v), v, Emitting(injectors[..i]))
    requires InjectionsOf(EventsOf(t2[|t1|..], v), v, Emitted1(injectors[i]))
    ensures Grows(t0, t2, h0, h2, n0, n2, v)
    ensures InjectionsOf(EventsOf(t2[|t0|..], v), v, Emitting(injectors[..i + 1]))
  {
    GrowsTrans(t0, t1, t2, h0, h1, h2, n0, n1, n2, v);
    EmittingStep(injectors, i);
    InjectionsOfAppend(EventsOf(t1[|t0|..], v), EventsOf(t2[|t1|..], v), v, Emitting(injectors[..i]), Emitted1(injectors[i]));
  }

  /**
   * A build so far: after the arguments, the construction `e` of the object numbered `n1`,
   * then growth about it.  No event concerns anything older, and the events about the object
   * are its construction and then those of the growth.
   */
  lemma PartialBuild(t0: seq<Event>, t1: seq<Event>, t2: seq<Event>, h0: seq<Hook>, h1: seq<Hook>, h2: seq<Hook>,
                     n0: nat, n1: nat, n2: nat, e: Event)
    requires Extends(t0, t1, h0, h1, n0, n1) && e.target == Created(n1)
    requires Grows(t1 + [e], t2, h1, h2, n1 + 1, n2, e.target)
    ensures Extends(t0, t2, h0, h2, n0, n2) && IsNew(e.target, n0, n2)
    ensures Grows(t0, t2, h0, h2, n0, n2, e.target)
    ensures EventsOf(t2[|t0|..], e.target) == [e] + EventsOf(t2[|t1| + 1..], e.target)
  {
    GrowsByEvent(t1, h1, n1, e);
    GrowsAfter(t0, t1, t1 + [e], h0, h1, h1, n0, n1, n1 + 1, e.target);
    assert Grows(t0, t1 + [e], h0, h1, n0, n1 + 1, e.target);
    GrowsTrans(t0, t1 + [e], t2, h0, h1, h2, n0, n1 + 1, n2, e.target);
    GrowsAboutNew(t0, t2, h0, h2, n0, n2, e.target);
  }

  /**
   * A finished build: the construction `e`, the injections of `ms`, then the post-construct
   * call and the teardown hook, when there are such methods.
   */
  lemma BuildComplete(t0: seq<Event>, t1: seq<Event>, t2: seq<Event>, t3: seq<Event>, h0: seq<Hook>, h2: seq<Hook>, h3: seq<Hook>,
                      n0: nat, n1: nat, n2: nat, e: Event, ms: seq<Member>, post: Option<MethodInfo>, pre: Option<MethodInfo>)
    requires Extends(t0, t2, h0, h2, n0, n2) && Grows(t0, t2, h0, h2, n0, n2, e.target) && IsNew(e.target, n0, n2)
    requires e.Constructed? && |t0| <= |t1| + 1 <= |t2|
    requires EventsOf(t2[|t0|..], e.target) == [e] + EventsOf(t2[|t1| + 1..], e.target)
    requires InjectionsOf(EventsOf(t2[|t1| + 1..], e.target), e.target, ms)
    requires t3 == if post.Some? then t2 + [PostConstructed(e.target, post.value)] else t2
    requires h3 == if pre.Some? then [Hook(e.target, pre.value)] + h2 else h2
    ensures Extends(t0, t3, h0, h3, n0, n2)
    ensures BuiltAs(EventsOf(t3[|t0|..], e.target), e.target, e.ctor, ms, post)
  {
    ghost var own := EventsOf(t2[|t0|..], e.target);
    if post.Some? {
      GrowsByEvent(t2, h2, n2, PostConstructed(e.target, post.value));
      GrowsTrans(t0, t2, t3, h0, h2, h2, n0, n2, n2, e.target);
      assert (own + [PostConstructed(e.target, post.value)])[1..1 + |ms|] == own[1..];
    } else {
      assert own[1..1 + |ms|] == own[1..];
    }
    if pre.Some? {
      GrowsByHook(t0, t3, h0, h2, n0, n2, e.target, Hook(e.target, pre.value));
    }
    GrowsAboutNew(t0, t3, h0, h3, n0, n2, e.target);
  }

  // ---- The constructor of InstanceProvider

  /** Whether a hook needs `setAccessible(true)`: its class or the method itself is not public. */
  function HookForced(ct: ClassTable, hook: Option<MethodInfo>): bool {
    hook.Some? && (!IsPublic(ct, Named(hook.value.declaring)) || hook.value.mods.access != Public)
  }

  /** The provider follows the plan for `typeData`. */
  predicate Realises(ip: InstanceProvider, typeData: TypeData, plan: Plan) {
    && ip.typeData == typeData && ip.ctor == plan.ctor
    && ip.constructorInjector.executable == ConstructorExecutable(plan.ctor)
    && MembersOf(ip.staticMemberInjectors) == plan.staticMembers && MembersOf(ip.memberInjectors) == plan.members
    && ip.postConstruct == plan.postConstruct && ip.preDestroy == plan.preDestroy
  }

  /**
   * `new InstanceProvider(typeData, ...)`: the constructor of the raw type (`InjectException`
   * without one), the injectors of the type hierarchy split into static and instance ones,
   * and the two hooks of the raw type.  It fails exactly as the plan of the raw type does,
   * and a new provider follows that plan.
   */
  method NewInstanceProvider(ct: ClassTable, fuel: nat, typeData: TypeData) returns (r: Result<InstanceProvider>)
    requires Valid(ct)
    ensures r.Failure? <==> PlanOf(ct, typeData.rawType).Failure?
    ensures r.Failure? ==> r.error == PlanOf(ct, typeData.rawType).error
    ensures r.Success? ==> fresh(r.value) && Realises(r.value, typeData, PlanOf(ct, typeData.rawType).value)
    ensures r.Success? ==> fresh(r.value.Fields()) && fresh(r.value.Arguments())
  {
    var rawType := typeData.rawType;
    var ctor :- InitConstructor(ct, rawType);
    var ci := new ExecutableInjector(ct, typeData, ConstructorExecutable(ctor));
    var h := GetTypeHierarchy(ct, rawType);
    var tempFields, tempMethods := ParseTypes(ct, h);
    tempMethods := RemoveOverridden(ct, tempMethods);
    tempMethods := RemoveNotInject(tempMethods);
    var statics, instances := AddInjectorLists(ct, fuel, typeData, tempFields, tempMethods);
    var post :- GetPostConstructMethod(ct, rawType);
    var pre :- GetPreDestroyMethod(ct, rawType);
    var ip := new InstanceProvider(typeData, ctor, ci, statics, instances, post, pre,
                                   HookForced(ct, post), HookForced(ct, pre));
    FreshInjectors(ip);
    r := Success(ip);
  }

  /** A provider whose injectors were all made since the old state owns only new injector objects. */
  twostate lemma FreshInjectors(new ip: InstanceProvider)
    requires fresh(ip.constructorInjector)
    requires NewSince(ip.staticMemberInjectors + ip.memberInjectors, [])
    ensures fresh(ip.Fields()) && fresh(ip.Arguments())
  {
    forall o | o in ip.Fields() ensures fresh(o) {
      var m :| m in ip.staticMemberInjectors + ip.memberInjectors && m.FieldInjection? && m.fieldInjector == o;
      assert m.Underlying() == o;
    }
    forall o | o in ip.Arguments() && o != ip.constructorInjector ensures fresh(o) {
      var m :| m in ip.staticMemberInjectors + ip.memberInjectors && m.MethodInjection? && m.argumentInjector == o;
      assert m.Underlying() == o;
    }
  }

  /** `initConstructor`: the `@Inject` constructor, or else `getDeclaredConstructor()`. */
  method InitConstructor(ct: ClassTable, c: Cls) returns (r: Result<CtorInfo>)
    ensures r == ConstructorFor(ct, c)
  {
    var injectable :- GetInjectConstructor(ct, c);
    if injectable.Some? {
      r := Success(injectable.value);
    } else {
      r := NoArgConstructor(ct, c);
    }
  }

  /** `parseType` for each class of the hierarchy, root first. */
  method ParseTypes(ct: ClassTable, h: seq<Cls>) returns (tempFields: seq<seq<FieldInfo>>, tempMethods: seq<seq<MethodInfo>>)
    ensures tempFields == HierarchyFields(ct, h) && tempMethods == HierarchyMethods(ct, h)
  {
    tempFields, tempMethods := [], [];
    for i := 0 to |h|
      invariant |tempFields| == i && forall j | 0 <= j < i :: tempFields[j] == Filter(DeclaredFields(ct, h[j]), IsInjectField)
      invariant |tempMethods| == i && forall j | 0 <= j < i :: tempMethods[j] == DeclaredMethods(ct, h[j])
    {
      var fields := GetInjectFields(ct, h[i]);
      var methods := GetMethods(ct, h[i]);
      tempFields, tempMethods := tempFields + [fields], tempMethods + [methods];
    }
  }

  /**
   * The loop of `addFields` and `addInjectors` over the classes: each member becomes one
   * injector, in the static list when the member is static and in the instance list otherwise.
   */
  method AddInjectorLists(ct: ClassTable, fuel: nat, typeData: TypeData, fields: seq<seq<FieldInfo>>, methods: seq<seq<MethodInfo>>)
    returns (statics: seq<MemberInjector>, instances: seq<MemberInjector>)
    requires Valid(ct) && |fields| == |methods|
    ensures SplitAs(statics, instances, [], [], Emitted(fields, methods, |fields|))
    ensures NewSince(statics + instances, [])
  {
    statics, instances := [], [];
    for i := 0 to |fields|
      invariant SplitAs(statics, instances, [], [], Emitted(fields, methods, i))
      invariant NewSince(statics + instances, [])
    {
      ghost var s0, i0 := statics, instances;
      label Before:
      statics, instances := AddInjectors(ct, fuel, typeData, fields[i], methods[i], statics, instances);
      EmittedStep(fields, methods, i, s0, i0, statics, instances);
      forall m | m in statics + instances && m !in []
        ensures fresh(m.Underlying())
      {
        if m !in s0 + i0 {
          assert fresh@Before(m.Underlying());
        }
      }
    }
  }

  /**
   * The injectors `statics` and `instances` extend `statics0` and `instances0` with one
   * injector per member of `order`: the static members in the first, the others in the second.
   */
  predicate SplitAs(statics: seq<MemberInjector>, instances: seq<MemberInjector>,
                    statics0: seq<MemberInjector>, instances0: seq<MemberInjector>, order: seq<Member>) {
    && MembersOf(statics) == MembersOf(statics0) + Filter(order, IsStaticMember)
    && MembersOf(instances) == MembersOf(instances0) + Filter(order, IsInstanceMember)
  }

  lemma EmittedStep(fields: seq<seq<FieldInfo>>, methods: seq<seq<MethodInfo>>, i: nat,
                    s0: seq<MemberInjector>, i0: seq<MemberInjector>, s1: seq<MemberInjector>, i1: seq<MemberInjector>)
    requires i < |fields| && i < |methods|
    requires SplitAs(s0, i0, [], [], Emitted(fields, methods, i))
    requires SplitAs(s1, i1, s0, i0, ClassMembers(fields[i], methods[i]))
    ensures SplitAs(s1, i1, [], [], Emitted(fields, methods, i + 1))
  {
    SplitTrans([], [], s0, i0, s1, i1, Emitted(fields, methods, i), ClassMembers(fields[i], methods[i]));
  }

  lemma PlacedStep(all: seq<Member>, k: nat, s0: seq<MemberInjector>, i0: seq<MemberInjector>,
                   s1: seq<MemberInjector>, i1: seq<MemberInjector>, s2: seq<MemberInjector>, i2: seq<MemberInjector>)
    requires k < |all|
    requires SplitAs(s1, i1, s0, i0, all[..k])
    requires SplitAs(s2, i2, s1, i1, [all[k]])
    ensures SplitAs(s2, i2, s0, i0, all[..k + 1])
  {
    assert all[..k + 1] == all[..k] + [all[k]];
    SplitTrans(s0, i0, s1, i1, s2, i2, all[..k], [all[k]]);
  }

  /** Splitting `a` and then `b` is splitting `a + b`. */
  lemma SplitTrans(s0: seq<MemberInjector>, i0: seq<MemberInjector>, s1: seq<MemberInjector>, i1: seq<MemberInjector>,
                   s2: seq<MemberInjector>, i2: seq<MemberInjector>, a: seq<Member>, b: seq<Member>)
    requires SplitAs(s1, i1, s0, i0, a) && SplitAs(s2, i2, s1, i1, b)
    ensures SplitAs(s2, i2, s0, i0, a + b)
  {
    FilterAppend(a, b, IsStaticMember);
    FilterAppend(a, b, IsInstanceMember);
    Associative(MembersOf(s0), Filter(a, IsStaticMember), Filter(b, IsStaticMember));
    Associative(MembersOf(i0), Filter(a, IsInstanceMember), Filter(b, IsInstanceMember));
  }

  lemma Associative<T>(x: seq<T>, y: seq<T>, z: seq<T>)
    ensures (x + y) + z == x + (y + z)
  {
  }

  /** `addFields` then `addInjectors` for one class: its fields, then its methods. */
  method AddInjectors(ct: ClassTable, fuel: nat, typeData: TypeData, fields: seq<FieldInfo>, methods: seq<MethodInfo>,
                      statics0: seq<MemberInjector>, instances0: seq<MemberInjector>)
    returns (statics: seq<MemberInjector>, instances: seq<MemberInjector>)
    requires Valid(ct)
    ensures SplitAs(statics, instances, statics0, instances0, ClassMembers(fields, methods))
    ensures NewSince(statics + instances, statics0 + instances0)
  {
    statics, instances := statics0, instances0;
    var all := ClassMembers(fields, methods);
    for k := 0 to |all|
      invariant SplitAs(statics, instances, statics0, instances0, all[..k])
      invariant NewSince(statics + instances, statics0 + instances0)
    {
      ghost var s1, i1 := statics, instances;
      statics, instances := Place(ct, fuel, typeData, all[k], statics, instances);
      PlacedStep(all, k, statics0, instances0, s1, i1, statics, instances);
    }
    assert all[..|all|] == all;
  }

  /** One injector for `m`, added to the static list or to the instance list. */
  method Place(ct: ClassTable, fuel: nat, typeData: TypeData, m: Member, statics0: seq<MemberInjector>, instances0: seq<MemberInjector>)
    returns (statics: seq<MemberInjector>, instances: seq<MemberInjector>)
    requires Valid(ct)
    ensures SplitAs(statics, instances, statics0, instances0, [m])
    ensures NewSince(statics + instances, statics0 + instances0)
  {
    var injector := NewMemberInjector(ct, fuel, typeData, m);
    FilterSnoc([], m, IsStaticMember);
    FilterSnoc([], m, IsInstanceMember);
    assert [] + [m] == [m];
    statics, instances := statics0, instances0;
    if m.IsStatic() {
      MembersOfSnoc(statics, injector);
      statics := statics + [injector];
    } else {
      MembersOfSnoc(instances, injector);
      instances := instances + [injector];
    }
  }

  /** `new FieldInjector` or `new MethodInjector` for one member. */
  method NewMemberInjector(ct: ClassTable, fuel: nat, typeData: TypeData, m: Member) returns (injector: MemberInjector)
    requires Valid(ct)
    ensures injector.Member() == m && fresh(injector.Underlying())
    ensures injector.FieldInjection? ==> injector.fieldInjector.dependency == FieldDependency(ct, typeData, injector.fieldInjector.field, fuel)
  {
    match m
    case FieldMember(f) =>
      var fi := new FieldInjector(ct, fuel, typeData, f);
      injector := FieldInjection(fi);
    case MethodMember(x) =>
      var ei := new ExecutableInjector(ct, typeData, MethodExecutable(x));
      injector := MethodInjection(x, ei);
  }

  /** The instance a `SingletonProvider` holds, null before it is built. */
  function CachedIn(cache: map<nat, Value>, serial: nat): Value {
    if serial in cache then cache[serial] else Null
  }

  /** Every filled cache of `c0` holds the same instance in `c1`: a singleton, once built, stays. */
  predicate CacheKept(c0: map<nat, Value>, c1: map<nat, Value>) {
    forall s | s in c0 && c0[s] != Null :: s in c1 && c1[s] == c0[s]
  }

  /**
   * `SingletonProvider.get()`: a cached instance is returned without building anything;
   * otherwise the source builds one, which is cached.  What is returned is always the
   * cached instance, and no filled cache changes.
   */
  method SingletonGet(serial: nat, source: InstanceProvider, inj: Injector, depth: nat) returns (r: Result<Value>)
    modifies inj`trace, inj`nextId, inj`preDestroy, inj`singletons
    ensures Extends(old(inj.trace), inj.trace, old(inj.preDestroy), inj.preDestroy, old(inj.nextId), inj.nextId)
    ensures CachedIn(old(inj.singletons), serial) != Null ==>
              r == Success(CachedIn(old(inj.singletons), serial)) && inj.singletons == old(inj.singletons)
              && inj.trace == old(inj.trace) && inj.nextId == old(inj.nextId) && inj.preDestroy == old(inj.preDestroy)
    ensures CachedIn(old(inj.singletons), serial) == Null && r.Success? ==> IsNew(r.value, old(inj.nextId), inj.nextId)
    ensures r.Success? ==> r.value == CachedIn(inj.singletons, serial) && r.value != Null
    ensures CacheKept(old(inj.singletons), inj.singletons)
    decreases depth, 0
  {
    if CachedIn(inj.singletons, serial) == Null {
      if depth == 0 {
        GrowsRefl(inj.trace, inj.preDestroy, inj.nextId, Null);
        return Failure(BoundExhausted);
      }
      var v :- source.Get(inj, depth - 1);
      inj.StoreSingleton(serial, v);
    } else {
      GrowsRefl(inj.trace, inj.preDestroy, inj.nextId, Null);
    }
    r := Success(CachedIn(inj.singletons, serial));
  }

  /**
   * `provider.get()` on a provider the container handed out: the immediate value of a
   * provider that builds nothing, a new instance from a prototype provider, the cached or
   * newly cached instance of a singleton provider.  With the `depth` bound used up, the
   * call fails with `BoundExhausted`, which stands for the stack overflow of a circular graph.
   */
  method Obtain(p: Provider, inj: Injector, depth: nat) returns (r: Result<Value>)
    modifies inj`trace, inj`nextId, inj`preDestroy, inj`singletons
    ensures Extends(old(inj.trace), inj.trace, old(inj.preDestroy), inj.preDestroy, old(inj.nextId), inj.nextId)
    ensures Immediate(p, inj.bindings).Some? ==> r == Success(Immediate(p, inj.bindings).value)
    ensures p.PrototypeProvider? && r.Success? ==> IsNew(r.value, old(inj.nextId), inj.nextId)
    ensures p.SingletonScoped? && r.Success? ==> r.value == CachedIn(inj.singletons, p.serial) && r.value != Null
    ensures CacheKept(old(inj.singletons), inj.singletons)
    decreases depth, 1
  {
    match p
    case PrototypeProvider(ip) =>
      if depth == 0 {
        GrowsRefl(inj.trace, inj.preDestroy, inj.nextId, Null);
        return Failure(BoundExhausted);
      }
      r := ip.Get(inj, depth - 1);
    case SingletonScoped(serial, source) =>
      r := SingletonGet(serial, source, inj, depth);
    case _ =>
      GrowsRefl(inj.trace, inj.preDestroy, inj.nextId, Null);
      r := Success(Immediate(p, inj.bindings).value);
  }

  /**
   * `get()` on a singleton provider, any other `get()` in between, then `get()` on the same
   * singleton provider again: once the first call has succeeded the second hands out the very
   * same instance, whatever the call in between built or cached.
   */
  method SingletonGetAgain(serial: nat, source: InstanceProvider, other: Provider, inj: Injector, depth: nat)
    returns (first: Result<Value>, between: Result<Value>, second: Result<Value>)
    modifies inj`trace, inj`nextId, inj`preDestroy, inj`singletons
    ensures first.Success? ==> second == first && first.value != Null
    ensures first.Success? ==> CachedIn(inj.singletons, serial) == first.value
  {
    first := SingletonGet(serial, source, inj, depth);
    between := Obtain(other, inj, depth);
    second := SingletonGet(serial, source, inj, depth);
  }

  /**
   * `inject(instance)` of a member injector: `FieldInjector.inject` or `MethodInjector.inject`,
   * the latter invoking the method with the arguments `injectArgs` builds.  The only event
   * about `target` is the injection, when there is one.
   */
  method InjectMember(m: MemberInjector, inj: Injector, target: Value, depth: nat) returns (r: Result<()>)
    requires target.Created? ==> target.id < inj.nextId
    modifies inj`trace, inj`nextId, inj`preDestroy, inj`singletons
    ensures Grows(old(inj.trace), inj.trace, old(inj.preDestroy), inj.preDestroy, old(inj.nextId), inj.nextId, target)
    ensures r.Success? ==> InjectionsOf(EventsOf(inj.trace[|old(inj.trace)|..], target), target, Emitted1(m))
    ensures CacheKept(old(inj.singletons), inj.singletons)
    decreases depth, 4
  {
    match m
    case FieldInjection(fi) =>
      r := fi.Inject(inj, target, depth);
    case MethodInjection(mi, ei) =>
      ghost var t0, h0, n0 := inj.trace, inj.preDestroy, inj.nextId;
      var got := ei.InjectArgs(inj, depth);
      if got.Failure? {
        ExtendsGrows(t0, inj.trace, h0, inj.preDestroy, n0, inj.nextId, target);
        return Failure(got.error);
      }
      Injected(t0, inj.trace, h0, inj.preDestroy, n0, inj.nextId, Invoked(target, mi, got.value), MethodMember(mi));
      inj.trace := inj.trace + [Invoked(target, mi, got.value)];
      r := Success(());
  }

  // ---- providerCheck of member injectors

  /**
   * What `providerCheck` leaves behind: a method injector has its argument providers; a
   * field injector has a provider, or none only because its dependency is unbound.
   */
  predicate Ready(m: MemberInjector, bindings: map<BindingKey, Provider>)
    reads (if m.FieldInjection? then {m.fieldInjector} else {})`provider
    reads (if m.MethodInjection? then {m.argumentInjector} else {})`providers
  {
    match m
    case FieldInjection(fi) => fi.Checked(bindings)
    case MethodInjection(_, ei) => ei.providers != null
  }

  /** Every injector of `ms` that was ready before is still ready. */
  twostate predicate KeptReady(ms: seq<MemberInjector>, bindings: map<BindingKey, Provider>)
    reads (set m | m in ms && m.FieldInjection? :: m.fieldInjector)`provider
    reads (set m | m in ms && m.MethodInjection? :: m.argumentInjector)`providers
  {
    forall m | m in ms && old(Ready(m, bindings)) :: Ready(m, bindings)
  }

  /**
   * `providerCheck()` of a member injector.  It only ever adds providers: whatever was
   * ready before, among `kept` and the constructor injector `ctor`, stays ready.
   */
  method CheckMember(m: MemberInjector, ct: ClassTable, fuel: nat, bindings: map<BindingKey, Provider>,
                     ghost kept: seq<MemberInjector>, ghost ctor: ExecutableInjector) returns (r: Result<()>)
    requires Valid(ct)
    modifies (if m.FieldInjection? then {m.fieldInjector} else {})`provider
    modifies (if m.MethodInjection? then {m.argumentInjector} else {})`providers
    ensures r.Success? ==> Ready(m, bindings)
    ensures KeptReady(kept, bindings)
    ensures old(ctor.providers) != null ==> ctor.providers != null
  {
    match m
    case FieldInjection(fi) =>
      r := CheckField(fi, bindings, kept);
    case MethodInjection(_, ei) =>
      r := CheckMethod(m, ct, fuel, bindings, kept, ctor);
  }

  method CheckField(fi: FieldInjector, bindings: map<BindingKey, Provider>, ghost kept: seq<MemberInjector>)
    returns (r: Result<()>)
    modifies fi`provider
    ensures r.Success? ==> Ready(FieldInjection(fi), bindings)
    ensures KeptReady(kept, bindings)
  {
    r := fi.ProviderCheck(bindings);
  }

  method CheckMethod(m: MemberInjector, ct: ClassTable, fuel: nat, bindings: map<BindingKey, Provider>,
                     ghost kept: seq<MemberInjector>, ghost ctor: ExecutableInjector) returns (r: Result<()>)
    requires Valid(ct) && m.MethodInjection?
    modifies m.argumentInjector`providers
    ensures r.Success? ==> Ready(m, bindings)
    ensures KeptReady(kept, bindings)
    ensures old(ctor.providers) != null ==> ctor.providers != null
  {
    r := m.argumentInjector.ProviderCheck(ct, fuel, bindings);
  }

  /** `providerCheck` of a constructor injector: what was ready among `kept` stays ready. */
  method CheckConstructor(ei: ExecutableInjector, ct: ClassTable, fuel: nat, bindings: map<BindingKey, Provider>,
                          ghost kept: seq<MemberInjector>) returns (r: Result<()>)
    requires Valid(ct)
    modifies ei`providers
    ensures r.Success? ==> ei.providers != null
    ensures KeptReady(kept, bindings)
  {
    r := ei.ProviderCheck(ct, fuel, bindings);
  }

  /** Every injector of `ms` is ready. */
  predicate AllReady(ms: seq<MemberInjector>, bindings: map<BindingKey, Provider>)
    reads (set m | m in ms && m.FieldInjection? :: m.fieldInjector)`provider
    reads (set m | m in ms && m.MethodInjection? :: m.argumentInjector)`providers
  {
    forall m | m in ms :: Ready(m, bindings)
  }

  /**
   * `providerCheck` on each injector of `ms` in order, stopping at the first that throws.
   * On success all are ready; what was ready among `kept` and `ctor` stays ready.
   */
  method CheckAll(ms: seq<MemberInjector>, ct: ClassTable, fuel: nat, bindings: map<BindingKey, Provider>,
                  ghost kept: seq<MemberInjector>, ghost ctor: ExecutableInjector) returns (r: Result<()>)
    requires Valid(ct)
    modifies FieldInjectorsOf(ms)`provider, ArgumentInjectorsOf(ms)`providers
    ensures r.Success? ==> AllReady(ms, bindings)
    ensures KeptReady(kept, bindings)
    ensures old(ctor.providers) != null ==> ctor.providers != null
  {
    for i := 0 to |ms|
      invariant AllReady(ms[..i], bindings)
      invariant KeptReady(kept, bindings)
      invariant old(ctor.providers) != null ==> ctor.providers != null
    {
      var m := ms[i];
      assert m.FieldInjection? ==> m.fieldInjector in FieldInjectorsOf(ms);
      assert m.MethodInjection? ==> m.argumentInjector in ArgumentInjectorsOf(ms);
      r := CheckMember(m, ct, fuel, bindings, ms[..i] + kept, ctor);
      if r.Failure? {
        return;
      }
      ReadySnoc(ms, i, bindings);
    }
    assert ms[..|ms|] == ms;
    r := Success(());
  }

  lemma ReadySnoc(ms: seq<MemberInjector>, i: nat, bindings: map<BindingKey, Provider>)
    requires i < |ms|
    requires AllReady(ms[..i], bindings) && Ready(ms[i], bindings)
    ensures AllReady(ms[..i + 1], bindings)
  {
    assert ms[..i + 1] == ms[..i] + [ms[i]];
  }

  // ---- Static members

  /**
   * `addStaticMembers` on member values: each incoming member not yet present is appended,
   * in order, so a member offered twice is kept once.
   */
  function AddNew(existing: seq<Member>, incoming: seq<Member>): seq<Member>
    decreases |incoming|
  {
    if |incoming| == 0 then existing
    else if incoming[0] in existing then AddNew(existing, incoming[1..])
    else AddNew(existing + [incoming[0]], incoming[1..])
  }

  /** Offering one more member after `incoming`. */
  lemma {:induction false} AddNewSnoc(existing: seq<Member>, incoming: seq<Member>, x: Member)
    ensures AddNew(existing, incoming + [x]) ==
            (var a := AddNew(existing, incoming); if x in a then a else a + [x])
    decreases |incoming|
  {
    if |incoming| == 0 {
      assert [] + [x] == [x];
      assert [x][1..] == [];
    } else {
      assert (incoming + [x])[0] == incoming[0];
      assert (incoming + [x])[1..] == incoming[1..] + [x];
      if incoming[0] in existing {
        AddNewSnoc(existing, incoming[1..], x);
      } else {
        AddNewSnoc(existing + [incoming[0]], incoming[1..], x);
      }
    }
  }

  lemma AddedStep(held: seq<MemberInjector>, members: seq<MemberInjector>, i: nat, before: seq<Member>, after: seq<Member>)
    requires i < |members|
    requires before == AddNew(MembersOf(held), MembersOf(members[..i]))
    requires after == (if members[i].Member() in before then before else before + [members[i].Member()])
    ensures after == AddNew(MembersOf(held), MembersOf(members[..i + 1]))
  {
    assert MembersOf(members[..i + 1]) == MembersOf(members[..i]) + [members[i].Member()];
    AddNewSnoc(MembersOf(held), MembersOf(members[..i]), members[i].Member());
  }

  predicate NoDuplicates<T(==)>(xs: seq<T>) {
    forall i, j | 0 <= i < j < |xs| :: xs[i] != xs[j]
  }

  /**
   * Adding keeps what was there as a prefix, holds exactly the members of both lists, and
   * never introduces a duplicate.
   */
  lemma {:induction false} AddNewCharacterised(existing: seq<Member>, incoming: seq<Member>)
    ensures |existing| <= |AddNew(existing, incoming)| && AddNew(existing, incoming)[..|existing|] == existing
    ensures forall x :: x in AddNew(existing, incoming) <==> x in existing || x in incoming
    ensures NoDuplicates(existing) ==> NoDuplicates(AddNew(existing, incoming))
    decreases |incoming|
  {
    if |incoming| > 0 {
      var x, rest := incoming[0], incoming[1..];
      assert incoming == [x] + rest;
      if x in existing {
        AddNewCharacterised(existing, rest);
      } else {
        var grown := existing + [x];
        AddNewCharacterised(grown, rest);
        assert grown[..|existing|] == existing;
        assert AddNew(existing, incoming)[..|existing|] == grown[..|grown|][..|existing|];
        if NoDuplicates(existing) {
          assert NoDuplicates(grown);
        }
      }
    }
  }

  /** What `injectArgs` passes for a slot: null for an empty one, the value of an immediate provider. */
  predicate ArgumentFrom(v: Value, slot: Option<Provider>, bindings: map<BindingKey, Provider>) {
    && (slot.None? ==> v == Null)
    && (slot.Some? && Immediate(slot.value, bindings).Some? ==> v == Immediate(slot.value, bindings).value)
  }

  // ---- Scopes

  /** A `ScopeKey`: a scope annotation and the provision it stands for. */
  datatype ScopeKey = ScopeKey(annotation: ClassName, provision: Strategy)

  /** The provision registered for a scope annotation. */
  function ScopeOf(scopes: seq<ScopeKey>, annotation: ClassName): Option<Strategy> {
    if |scopes| == 0 then None
    else if scopes[0].annotation == annotation then Some(scopes[0].provision)
    else ScopeOf(scopes[1..], annotation)
  }

  /** `scopes.put(annotation, provision)`: an entry already held keeps its place and takes the new provision. */
  function PutScope(scopes: seq<ScopeKey>, k: ScopeKey): seq<ScopeKey> {
    if |scopes| == 0 then [k]
    else if scopes[0].annotation == k.annotation then [k] + scopes[1..]
    else [scopes[0]] + PutScope(scopes[1..], k)
  }

  /** The entries `keys` put in order. */
  function PutScopes(scopes: seq<ScopeKey>, keys: seq<ScopeKey>): seq<ScopeKey> {
    if |keys| == 0 then scopes else PutScope(PutScopes(scopes, keys[..|keys| - 1]), keys[|keys| - 1])
  }

  predicate DistinctScopes(scopes: seq<ScopeKey>) {
    forall i, j | 0 <= i < j < |scopes| :: scopes[i].annotation != scopes[j].annotation
  }

  /** After a put, the annotation has the new provision and every other keeps its own. */
  lemma {:induction false} PutScopeLookup(scopes: seq<ScopeKey>, k: ScopeKey, a: ClassName)
    ensures ScopeOf(PutScope(scopes, k), a) == if a == k.annotation then Some(k.provision) else ScopeOf(scopes, a)
    decreases |scopes|
  {
    if |scopes| > 0 && scopes[0].annotation != k.annotation {
      PutScopeLookup(scopes[1..], k, a);
      assert ([scopes[0]] + PutScope(scopes[1..], k))[1..] == PutScope(scopes[1..], k);
    } else if |scopes| > 0 {
      assert ([k] + scopes[1..])[1..] == scopes[1..];
    }
  }

  /** A put keeps the other entries, adds only the new one, and never lists an annotation twice. */
  lemma {:induction false} PutScopeEntries(scopes: seq<ScopeKey>, k: ScopeKey)
    ensures forall x | x in PutScope(scopes, k) :: x == k || x in scopes
    ensures forall x | x in scopes && x.annotation != k.annotation :: x in PutScope(scopes, k)
    ensures k in PutScope(scopes, k)
    ensures DistinctScopes(scopes) ==> DistinctScopes(PutScope(scopes, k))
    decreases |scopes|
  {
    if |scopes| > 0 && scopes[0].annotation != k.annotation {
      PutScopeEntries(scopes[1..], k);
      var rest := PutScope(scopes[1..], k);
      if DistinctScopes(scopes) {
        assert DistinctScopes(scopes[1..]) by {
          forall i, j | 0 <= i < j < |scopes[1..]| ensures scopes[1..][i].annotation != scopes[1..][j].annotation {
            assert scopes[1..][i] == scopes[i + 1] && scopes[1..][j] == scopes[j + 1];
          }
        }
        DistinctCons(scopes[0], rest);
      }
    } else if |scopes| > 0 {
      if DistinctScopes(scopes) {
        DistinctCons(k, scopes[1..]);
      }
    }
  }

  lemma DistinctCons(x: ScopeKey, rest: seq<ScopeKey>)
    requires DistinctScopes(rest) && forall y | y in rest :: y.annotation != x.annotation
    ensures DistinctScopes([x] + rest)
  {
    forall i, j | 0 <= i < j < |[x] + rest| ensures ([x] + rest)[i].annotation != ([x] + rest)[j].annotation {
      assert ([x] + rest)[j] == rest[j - 1];
      if i > 0 {
        assert ([x] + rest)[i] == rest[i - 1];
      }
    }
  }

  /** The index of the last entry of `keys` for `annotation`, or -1 when none is. */
  function LastAt(keys: seq<ScopeKey>, annotation: ClassName): (r: int)
    ensures -1 <= r < |keys|
    ensures r >= 0 ==> keys[r].annotation == annotation
    ensures forall l | r < l < |keys| :: keys[l].annotation != annotation
  {
    if |keys| == 0 then -1
    else if keys[|keys| - 1].annotation == annotation then |keys| - 1
    else LastAt(keys[..|keys| - 1], annotation)
  }

  /**
   * The last registration of an annotation decides its provision; an annotation no entry
   * of `keys` names keeps the provision it had.
   */
  lemma {:induction false} LastScopeWins(scopes: seq<ScopeKey>, keys: seq<ScopeKey>, a: ClassName)
    ensures ScopeOf(PutScopes(scopes, keys), a) ==
            (var j := LastAt(keys, a); if j < 0 then ScopeOf(scopes, a) else Some(keys[j].provision))
  {
    if |keys| > 0 {
      var n := |keys| - 1;
      var init := keys[..n];
      PutScopeLookup(PutScopes(scopes, init), keys[n], a);
      if keys[n].annotation != a {
        LastScopeWins(scopes, init, a);
        var j := LastAt(init, a);
        if j >= 0 {
          assert init[j] == keys[j];
        }
      }
    }
  }

  /** Puts never list an annotation twice. */
  lemma {:induction false} PutScopesDistinct(scopes: seq<ScopeKey>, keys: seq<ScopeKey>)
    requires DistinctScopes(scopes)
    ensures DistinctScopes(PutScopes(scopes, keys))
  {
    if |keys| > 0 {
      var n := |keys| - 1;
      PutScopesDistinct(scopes, keys[..n]);
      PutScopeEntries(PutScopes(scopes, keys[..n]), keys[n]);
    }
  }

  /**
   * For an implementation class that carries none of the scope annotations, a binding
   * scoped `a` gets the provision registered for `a`, or `PROTOTYPE` when `a` is no scope.
   */
  lemma {:induction false} ProvisionOfScope(ct: ClassTable, scopes: seq<ScopeKey>, implementation: TypeData, a: ClassName)
    requires DistinctScopes(scopes)
    requires forall i | 0 <= i < |scopes| :: !IsAnnotationPresent(ct, implementation.rawType, scopes[i].annotation)
    ensures Provision(ct, scopes, Some(implementation), Some(a)) ==
            Success(if ScopeOf(scopes, a).Some? then ScopeOf(scopes, a).value else PrototypeStrategy)
    decreases |scopes|
  {
    if |scopes| > 0 && scopes[0].annotation != a {
      assert DistinctScopes(scopes[1..]) by {
        forall i, j | 0 <= i < j < |scopes[1..]| ensures scopes[1..][i].annotation != scopes[1..][j].annotation {
          assert scopes[1..][i] == scopes[i + 1] && scopes[1..][j] == scopes[j + 1];
        }
      }
      assert forall i | 0 <= i < |scopes[1..]| :: scopes[1..][i] == scopes[i + 1];
      ProvisionOfScope(ct, scopes[1..], implementation, a);
    }
  }

  /** Whether the entry for `key` is the provision chosen for `implementation` bound in `scope`. */
  predicate Selects(ct: ClassTable, key: ScopeKey, implementation: TypeData, scope: Option<ClassName>) {
    IsAnnotationPresent(ct, implementation.rawType, key.annotation) || scope == Some(key.annotation)
  }

  /** `isAnnotationPresent` on a class: the class declares an annotation of that type. */
  predicate IsAnnotationPresent(ct: ClassTable, c: Cls, annotation: ClassName) {
    c.Named? && Annotated(Info(ct, c.name).annotations, annotation)
  }

  /**
   * `getProvision(implementation, scope)` over the entries in enumeration order: the first
   * entry whose annotation the implementation carries or which is the binding's scope, or
   * else `PROTOTYPE`.  Without an implementation the first entry throws.
   */
  function Provision(ct: ClassTable, scopes: seq<ScopeKey>, implementation: Option<TypeData>, scope: Option<ClassName>)
    : Result<Strategy>
  {
    if |scopes| == 0 then Success(PrototypeStrategy)
    else if implementation.None? then Failure(NullPointer)
    else if Selects(ct, scopes[0], implementation.value, scope) then Success(scopes[0].provision)
    else Provision(ct, scopes[1..], implementation, scope)
  }

  /**
   * The provision is that of the first selecting entry, `PROTOTYPE` when none selects, and a
   * `NullPointerException` when there is an entry but no implementation.
   */
  lemma {:induction false} ProvisionCharacterised(ct: ClassTable, scopes: seq<ScopeKey>, implementation: Option<TypeData>,
                                                  scope: Option<ClassName>)
    ensures implementation.None? && |scopes| > 0 ==> Provision(ct, scopes, implementation, scope) == Failure(NullPointer)
    ensures implementation.Some? && (forall i | 0 <= i < |scopes| :: !Selects(ct, scopes[i], implementation.value, scope)) ==>
              Provision(ct, scopes, implementation, scope) == Success(PrototypeStrategy)
    ensures implementation.Some? ==>
              forall i | 0 <= i < |scopes| && Selects(ct, scopes[i], implementation.value, scope) &&
                         (forall j | 0 <= j < i :: !Selects(ct, scopes[j], implementation.value, scope)) ::
                Provision(ct, scopes, implementation, scope) == Success(scopes[i].provision)
    decreases |scopes|
  {
    if |scopes| > 0 && implementation.Some? && !Selects(ct, scopes[0], implementation.value, scope) {
      ProvisionCharacterised(ct, scopes[1..], implementation, scope);
      assert forall i | 1 <= i < |scopes| :: scopes[1..][i - 1] == scopes[i];
    }
  }

  /** With an implementation, a provision is always found. */
  lemma {:induction false} ProvisionSucceeds(ct: ClassTable, scopes: seq<ScopeKey>, implementation: TypeData, scope: Option<ClassName>)
    ensures Provision(ct, scopes, Some(implementation), scope).Success?
    decreases |scopes|
  {
    if |scopes| > 0 {
      ProvisionSucceeds(ct, scopes[1..], implementation, scope);
    }
  }

  /**
   * With only `@Singleton` registered, as in `BaseInjector`, a binding is a singleton exactly
   * when its implementation class is annotated `@Singleton` or it was scoped `Singleton`.
   */
  lemma BaseProvision(ct: ClassTable, implementation: TypeData, scope: Option<ClassName>)
    ensures var p := Provision(ct, [ScopeKey(SingletonAnnotation, SingletonStrategy)], Some(implementation), scope);
            p.Success? &&
            (p.value == SingletonStrategy <==>
               IsAnnotationPresent(ct, implementation.rawType, SingletonAnnotation) || scope == Some(SingletonAnnotation))
  {
    assert [ScopeKey(SingletonAnnotation, SingletonStrategy)][1..] == [];
  }

  /** The provider a provision makes of an instance provider: `PrototypeProvider::new` or `SingletonProvider::new`. */
  function NewProvider(strategy: Strategy, source: InstanceProvider, serial: nat): Provider {
    match strategy
    case PrototypeStrategy => PrototypeProvider(source)
    case SingletonStrategy => SingletonScoped(serial, source)
  }

  // ---- Registered instance providers

  /** `instanceProviders.get(implementation)`: the entry registered for that type. */
  function FindInstanceProvider(ips: seq<InstanceProvider>, implementation: TypeData): (r: Option<InstanceProvider>)
    ensures r.Some? ==> r.value in ips && r.value.typeData == implementation
    ensures r.None? ==> forall ip | ip in ips :: ip.typeData != implementation
  {
    if |ips| == 0 then None
    else if ips[0].typeData == implementation then Some(ips[0])
    else FindInstanceProvider(ips[1..], implementation)
  }

  /** Registering more providers never changes what an earlier entry answers. */
  lemma {:induction false} FindExtended(ips: seq<InstanceProvider>, more: seq<InstanceProvider>, implementation: TypeData)
    ensures FindInstanceProvider(ips, implementation).Some? ==>
              FindInstanceProvider(ips + more, implementation) == FindInstanceProvider(ips, implementation)
    ensures FindInstanceProvider(ips, implementation).None? ==>
              FindInstanceProvider(ips + more, implementation) == FindInstanceProvider(more, implementation)
    decreases |ips|
  {
    if |ips| > 0 {
      assert (ips + more)[0] == ips[0] && (ips + more)[1..] == ips[1..] + more;
      FindExtended(ips[1..], more, implementation);
    } else {
      assert ips + more == more;
    }
  }

  /** The field injectors of the registered providers. */
  function OwnedFields(ips: seq<InstanceProvider>): set<FieldInjector> {
    set ip, o | ip in ips && o in ip.Fields() :: o
  }

  /** The executable injectors of the registered providers. */
  function OwnedArguments(ips: seq<InstanceProvider>): set<ExecutableInjector> {
    set ip, o | ip in ips && o in ip.Arguments() :: o
  }

  lemma OwnedContains(ips: seq<InstanceProvider>, i: nat)
    requires i < |ips|
    ensures ips[i].Fields() <= OwnedFields(ips) && ips[i].Arguments() <= OwnedArguments(ips)
  {
  }

  /** The static member lists of the registered providers, as members. */
  function StaticListsOf(ips: seq<InstanceProvider>): (r: seq<seq<Member>>)
    ensures |r| == |ips| && forall k | 0 <= k < |ips| :: r[k] == MembersOf(ips[k].staticMemberInjectors)
  {
    seq(|ips|, k requires 0 <= k < |ips| => MembersOf(ips[k].staticMemberInjectors))
  }

  lemma AddNewAllStep(held: seq<Member>, ips: seq<InstanceProvider>, i: nat, before: seq<Member>, after: seq<Member>)
    requires i < |ips| && before == AddNewAll(held, StaticListsOf(ips[..i]))
    requires after == AddNew(before, MembersOf(ips[i].staticMemberInjectors))
    ensures after == AddNewAll(held, StaticListsOf(ips[..i + 1]))
  {
    assert StaticListsOf(ips[..i + 1])[..i] == StaticListsOf(ips[..i]);
  }

  /** `addStaticMembers` called once per list, in order. */
  function AddNewAll(existing: seq<Member>, lists: seq<seq<Member>>): seq<Member> {
    if |lists| == 0 then existing else AddNew(AddNewAll(existing, lists[..|lists| - 1]), lists[|lists| - 1])
  }

  /** Whether `x` is in one of the lists. */
  predicate InSome(lists: seq<seq<Member>>, x: Member) {
    exists k | 0 <= k < |lists| :: x in lists[k]
  }

  lemma InSomeSnoc(lists: seq<seq<Member>>, x: Member)
    requires |lists| > 0
    ensures InSome(lists, x) <==> InSome(lists[..|lists| - 1], x) || x in lists[|lists| - 1]
  {
    var init := lists[..|lists| - 1];
    if InSome(lists, x) {
      var k :| 0 <= k < |lists| && x in lists[k];
      if k < |init| {
        assert x in init[k];
      }
    }
    if InSome(init, x) {
      var k :| 0 <= k < |init| && x in init[k];
      assert x in lists[k];
    }
  }

  /** The static members end up as those held before and those of every list, each once. */
  lemma {:induction false} AddNewAllCharacterised(existing: seq<Member>, lists: seq<seq<Member>>)
    ensures existing <= AddNewAll(existing, lists)
    ensures forall x :: x in AddNewAll(existing, lists) <==> x in existing || InSome(lists, x)
    ensures NoDuplicates(existing) ==> NoDuplicates(AddNewAll(existing, lists))
  {
    if |lists| > 0 {
      var init := lists[..|lists| - 1];
      AddNewAllCharacterised(existing, init);
      AddNewCharacterised(AddNewAll(existing, init), lists[|lists| - 1]);
      forall x ensures InSome(lists, x) <==> InSome(init, x) || x in lists[|lists| - 1] {
        InSomeSnoc(lists, x);
      }
    }
  }

  // ---- Bindings

  /** A `bind(type)` call of a module, followed by the calls on the builder it returns. */
  datatype Bind = Bind(typeData: TypeData, calls: seq<Config>)

  /** `Module.install`: the bind statements a module runs against the binder, in order. */
  type Module = seq<Bind>

  /** The settings of the builders a module leaves behind, one per bind statement. */
  function Declared(binds: Module): (r: seq<BindingState>)
    ensures |r| == |binds| && forall k | 0 <= k < |binds| :: r[k] == ApplyAll(NewBinding(binds[k].typeData), binds[k].calls)
  {
    if |binds| == 0 then []
    else
      var last := binds[|binds| - 1];
      Declared(binds[..|binds| - 1]) + [ApplyAll(NewBinding(last.typeData), last.calls)]
  }

  /** The settings of the builders `bs`. */
  function StatesOf(bs: seq<Binding>): (r: seq<BindingState>)
    reads set b | b in bs
    ensures |r| == |bs| && forall k | 0 <= k < |bs| :: r[k] == bs[k].State()
  {
    if |bs| == 0 then [] else StatesOf(bs[..|bs| - 1]) + [bs[|bs| - 1].State()]
  }

  lemma StatesOfSnoc(bs: seq<Binding>, b: Binding)
    ensures StatesOf(bs + [b]) == StatesOf(bs) + [b.State()]
  {
    assert (bs + [b])[..|bs|] == bs;
  }

  function KeysOf(states: seq<BindingState>): (r: seq<BindingKey>)
    ensures |r| == |states| && forall k | 0 <= k < |states| :: r[k] == KeyOf(states[k])
  {
    seq(|states|, k requires 0 <= k < |states| => KeyOf(states[k]))
  }

  /** `bindings.put(key, provider)` for each pair in order. */
  function BindingsAfter(bindings: map<BindingKey, Provider>, keys: seq<BindingKey>, chosen: seq<Provider>)
    : map<BindingKey, Provider>
    requires |keys| == |chosen|
  {
    if |keys| == 0 then bindings
    else BindingsAfter(bindings, keys[..|keys| - 1], chosen[..|keys| - 1])[keys[|keys| - 1] := chosen[|keys| - 1]]
  }

  /**
   * The last put for a key wins: a key is bound iff it was bound before or some builder has
   * it; its provider is the one of the last builder with that key, or else the earlier one.
   */
  lemma {:induction false} LastBindingWins(bindings: map<BindingKey, Provider>, keys: seq<BindingKey>, chosen: seq<Provider>,
                                           key: BindingKey)
    requires |keys| == |chosen|
    ensures Lookup(BindingsAfter(bindings, keys, chosen), key).Some? <==> key in bindings || key in keys
    ensures key !in keys ==> Lookup(BindingsAfter(bindings, keys, chosen), key) == Lookup(bindings, key)
    ensures forall j | 0 <= j < |keys| && keys[j] == key && (forall l | j < l < |keys| :: keys[l] != key) ::
              Lookup(BindingsAfter(bindings, keys, chosen), key) == Some(chosen[j])
  {
    if |keys| > 0 {
      var n := |keys| - 1;
      LastBindingWins(bindings, keys[..n], chosen[..n], key);
      assert keys == keys[..n] + [keys[n]];
      forall j | 0 <= j < |keys| && keys[j] == key && (forall l | j < l < |keys| :: keys[l] != key)
        ensures Lookup(BindingsAfter(bindings, keys, chosen), key) == Some(chosen[j])
      {
        if j < n {
          assert keys[..n][j] == key && chosen[..n][j] == chosen[j];
          assert forall l | j < l < n :: keys[..n][l] == keys[l];
        }
      }
    }
  }

  /**
   * What `provider()` of a builder with settings `state` returned: its explicit provider, or
   * the provider memoised for its implementation and scope.
   */
  predicate Recorded(state: BindingState, p: Provider, providers: map<ProviderKey, Provider>) {
    match ChoiceOf(state)
    case Explicit(q) => p == q
    case Built(implementation, scope) =>
      ProviderKeyOf(implementation, scope) in providers && providers[ProviderKeyOf(implementation, scope)] == p
  }

  /** `getProvider(key)`: `bindings.get(key)`, null when the key is not bound. */
  function Lookup(bindings: map<BindingKey, Provider>, key: BindingKey): Option<Provider> {
    if key in bindings then Some(bindings[key]) else None
  }

  /** Entries are only ever added to the memo of providers. */
  predicate SubMap(m0: map<ProviderKey, Provider>, m1: map<ProviderKey, Provider>) {
    forall k | k in m0 :: k in m1 && m1[k] == m0[k]
  }

  /** Instance providers registered since the old state, and the injectors they own, are new objects. */
  twostate predicate AllFresh(new ips: seq<InstanceProvider>, ips0: seq<InstanceProvider>) {
    forall ip | ip in ips && ip !in ips0 :: fresh(ip) && fresh(ip.Fields()) && fresh(ip.Arguments())
  }

  /**
   * Each `SingletonProvider` in the memo has its own cache: its allocation number is below
   * the count handed out, and no two memoised singletons share one.
   */
  predicate SerialsDistinct(providers: map<ProviderKey, Provider>, count: nat) {
    && (forall k | k in providers && providers[k].SingletonScoped? :: providers[k].serial < count)
    && (forall k1, k2 | k1 in providers && k2 in providers && k1 != k2 &&
                        providers[k1].SingletonScoped? && providers[k2].SingletonScoped? ::
          providers[k1].serial != providers[k2].serial)
  }

  lemma SerialsStep(providers: map<ProviderKey, Provider>, count: nat, key: ProviderKey, p: Provider, count1: nat)
    requires SerialsDistinct(providers, count) && key !in providers
    requires if p.SingletonScoped? then p.serial == count && count1 == count + 1 else count1 == count
    ensures SerialsDistinct(providers[key := p], count1)
  {
  }

  /**
   * The first `|chosen|` builders of `states` have been bound from `bindings0`: `bindings` is
   * what their puts give, and each provider put is the one `provider()` returned.
   */
  predicate Bound(bindings0: map<BindingKey, Provider>, states: seq<BindingState>, chosen: seq<Provider>,
                  bindings: map<BindingKey, Provider>, providers: map<ProviderKey, Provider>)
  {
    && |chosen| == |states|
    && bindings == BindingsAfter(bindings0, KeysOf(states), chosen)
    && forall k | 0 <= k < |states| :: Recorded(states[k], chosen[k], providers)
  }

  lemma BoundStep(bindings0: map<BindingKey, Provider>, states: seq<BindingState>, i: nat, chosen: seq<Provider>,
                  bindings: map<BindingKey, Provider>, p0: map<ProviderKey, Provider>, p1: map<ProviderKey, Provider>,
                  p: Provider)
    requires i < |states| && Bound(bindings0, states[..i], chosen, bindings, p0)
    requires SubMap(p0, p1) && Recorded(states[i], p, p1)
    ensures Bound(bindings0, states[..i + 1], chosen + [p], bindings[KeyOf(states[i]) := p], p1)
  {
    var keys := KeysOf(states[..i + 1]);
    assert keys[..i] == KeysOf(states[..i]);
    assert (chosen + [p])[..i] == chosen;
    forall k | 0 <= k < i + 1 ensures Recorded(states[..i + 1][k], (chosen + [p])[k], p1) {
      if k < i {
        assert states[..i + 1][k] == states[..i][k];
      }
    }
  }

  /** The settings of the builders of several modules, in installation order. */
  function AllDeclared(modules: seq<Module>): seq<BindingState> {
    if |modules| == 0 then [] else AllDeclared(modules[..|modules| - 1]) + Declared(modules[|modules| - 1])
  }

  /**
   * The base module is installed first: unless a later module binds `Injector` without a
   * qualifier, `getProvider` of that key answers the injector itself.
   */
  lemma InjectorBoundToItself(first: Module, rest: seq<Module>, chosen: seq<Provider>,
                              bindings: map<BindingKey, Provider>, providers: map<ProviderKey, Provider>)
    requires Bound(map[], Declarations(first, rest), chosen, bindings, providers)
    requires forall k | 0 < k < |Declarations(first, rest)| ::
               KeyOf(Declarations(first, rest)[k]) != BindingKeyOf(InjectorData(), None)
    ensures Lookup(bindings, BindingKeyOf(InjectorData(), None)) == Some(ProviderImpl(InjectorSelf))
  {
    var states := Declarations(first, rest);
    BaseDeclaredFirst(first, rest);
    assert Recorded(states[0], chosen[0], providers);
    var bind := BaseModule()[0];
    assert bind.calls[..0] == [];
    assert chosen[0] == ProviderImpl(InjectorSelf);
    var keys := KeysOf(states);
    var key := BindingKeyOf(InjectorData(), None);
    assert keys[0] == key;
    LastBindingWins(map[], keys, chosen, key);
  }


  /**
   * What `getInstanceProvider` did: returned the provider registered for the type, or failed
   * as the plan of the type does, or registered and returned a new provider that follows it.
   */
  predicate Registers(ct: ClassTable, implementation: TypeData, ips0: seq<InstanceProvider>, ips1: seq<InstanceProvider>,
                      r: Result<InstanceProvider>)
    requires Valid(ct)
  {
    var found := FindInstanceProvider(ips0, implementation);
    var plan := PlanOf(ct, implementation.rawType);
    if found.Some? then r == Success(found.value) && ips1 == ips0
    else if r.Failure? then plan.Failure? && r.error == plan.error && ips1 == ips0
    else plan.Success? && ips1 == ips0 + [r.value] && Realises(r.value, implementation, plan.value)
  }

  /** The provider a provision of a registered instance provider made, with the allocation number `serial`. */
  predicate MadeBy(p: Provider, strategy: Result<Strategy>, source: Option<InstanceProvider>, serial: nat) {
    strategy.Success? && source.Some? && p == NewProvider(strategy.value, source.value, serial)
  }

  /**
   * What `getProvision(implementation, scope).apply(getInstanceProvider(implementation))`
   * did: without an implementation a `NullPointerException`; else a failure exactly when no
   * instance provider is registered for the implementation and its plan fails; on success
   * the provision of the pair applied to the instance provider now registered for the
   * implementation, with a new allocation number when it is a singleton.
   */
  predicate Made(ct: ClassTable, scopes: seq<ScopeKey>, implementation: Option<TypeData>, scope: Option<ClassName>,
                 ips0: seq<InstanceProvider>, ips1: seq<InstanceProvider>, count0: nat, count1: nat, r: Result<Provider>)
    requires Valid(ct)
  {
    if implementation.None? then r == Failure(NullPointer) && ips1 == ips0 && count1 == count0
    else if r.Failure? then
      && FindInstanceProvider(ips0, implementation.value).None? && PlanOf(ct, implementation.value.rawType).Failure?
      && r.error == PlanOf(ct, implementation.value.rawType).error && count1 == count0
    else
      && MadeBy(r.value, Provision(ct, scopes, implementation, scope), FindInstanceProvider(ips1, implementation.value), count0)
      && count1 == if r.value.SingletonScoped? then count0 + 1 else count0
  }

  /** What `buildAndRegisterProvider` did for a pair not memoised: a provider made as above, memoised under the pair. */
  predicate BuiltProvider(ct: ClassTable, scopes: seq<ScopeKey>, implementation: Option<TypeData>, scope: Option<ClassName>,
                          ips0: seq<InstanceProvider>, ips1: seq<InstanceProvider>,
                          providers0: map<ProviderKey, Provider>, providers1: map<ProviderKey, Provider>,
                          count0: nat, count1: nat, r: Result<Provider>)
    requires Valid(ct)
  {
    && Made(ct, scopes, implementation, scope, ips0, ips1, count0, count1, r)
    && providers1 == if r.Success? then providers0[ProviderKeyOf(implementation, scope) := r.value] else providers0
  }

  // ---- Teardown

  /** The `preDestroy` calls `destroy` makes, front to back. */
  function Teardown(hooks: seq<Hook>): (r: seq<Event>)
    ensures |r| == |hooks| && forall k | 0 <= k < |hooks| :: r[k] == PreDestroyed(hooks[k].instance, hooks[k].methodInfo)
  {
    if |hooks| == 0 then []
    else Teardown(hooks[..|hooks| - 1]) + [PreDestroyed(hooks[|hooks| - 1].instance, hooks[|hooks| - 1].methodInfo)]
  }

  /** `addPreDestroy` for each hook in order, starting from `held`. */
  function RegisterAll(held: seq<Hook>, hooks: seq<Hook>): seq<Hook>
    decreases |hooks|
  {
    if |hooks| == 0 then held else RegisterAll([hooks[0]] + held, hooks[1..])
  }

  /**
   * Teardown is last in, first out: of two hooks registered in turn, the later one's call
   * comes first, and all of them come before the calls of hooks held before.
   */
  lemma {:induction false} TeardownIsLifo(held: seq<Hook>, hooks: seq<Hook>)
    ensures |RegisterAll(held, hooks)| == |hooks| + |held|
    ensures forall k | 0 <= k < |hooks| ::
              Teardown(RegisterAll(held, hooks))[|hooks| - 1 - k] == PreDestroyed(hooks[k].instance, hooks[k].methodInfo)
    ensures RegisterAll(held, hooks)[|hooks|..] == held
    decreases |hooks|
  {
    if |hooks| > 0 {
      TeardownIsLifo([hooks[0]] + held, hooks[1..]);
      var all := RegisterAll([hooks[0]] + held, hooks[1..]);
      assert all[|hooks| - 1] == hooks[0];
      assert all[|hooks|..] == ([hooks[0]] + held)[1..];
      forall k | 1 <= k < |hooks| ensures Teardown(all)[|hooks| - 1 - k] == PreDestroyed(hooks[k].instance, hooks[k].methodInfo) {
        assert hooks[1..][k - 1] == hooks[k];
      }
    }
  }

  /** The descriptor of `Injector.class`, as `bind(Injector.class)` gets it. */
  function InjectorData(): TypeData {
    TypeData(Raw(Named(InjectorClass)), Named(InjectorClass), Hash(Raw(Named(InjectorClass))))
  }

  /** The base module `i -> i.bind(Injector.class).to(this)`. */
  function BaseModule(): Module {
    [Bind(InjectorData(), [ToInstanceCall(InjectorSelf)])]
  }

  // ---- The injector

  /** `AbstractInjector`, with the reflective effects it causes recorded in `trace`. */
  class Injector {
    /** The classes reflection sees. */
    const ct: ClassTable
    /** How deep type resolution may go before it is taken to overflow the stack. */
    const fuel: nat
    var builders: seq<Binding>
    var bindings: map<BindingKey, Provider>
    /** The `instanceProviders` map, in the order its entries were registered. */
    var instanceProviders: seq<InstanceProvider>
    var staticMembers: seq<MemberInjector>
    var preDestroy: seq<Hook>
    /** The `scopes` map, in the order it enumerates its entries. */
    var scopes: seq<ScopeKey>
    var providers: map<ProviderKey, Provider>
    /** The reflective effects so far, and the number of objects constructed. */
    var trace: seq<Event>
    var nextId: nat
    /** The `instance` field of each `SingletonProvider`, by allocation number. */
    var singletons: map<nat, Value>
    var singletonCount: nat

    /**
     * The first statements of the `AbstractInjector` constructor: `SINGLETON` registered for
     * `@Singleton`, then each scope of `getScopes()` put in order; everything else empty.
     */
    constructor (ct: ClassTable, fuel: nat, extraScopes: seq<ScopeKey>)
      ensures this.ct == ct && this.fuel == fuel
      ensures scopes == PutScopes([ScopeKey(SingletonAnnotation, SingletonStrategy)], extraScopes)
      ensures builders == [] && bindings == map[] && instanceProviders == [] && staticMembers == []
      ensures preDestroy == [] && providers == map[] && trace == [] && nextId == 0
      ensures singletons == map[] && singletonCount == 0
    {
      this.ct := ct;
      this.fuel := fuel;
      var table := ScopeTable(extraScopes);
      scopes := table;
      builders, bindings, instanceProviders, staticMembers := [], map[], [], [];
      preDestroy, providers, trace, nextId := [], map[], [], 0;
      singletons, singletonCount := map[], 0;
    }

    /** `newInstance` on a constructor: a new object, its construction recorded. */
    method Construct(ctor: CtorInfo, args: seq<Value>) returns (instance: Value)
      modifies this`nextId, this`trace
      ensures instance == Created(old(nextId)) && nextId == old(nextId) + 1
      ensures trace == old(trace) + [Constructed(instance, ctor, args)]
    {
      instance := Created(nextId);
      nextId := nextId + 1;
      trace := trace + [Constructed(instance, ctor, args)];
    }

    /** A reflective effect. */
    method Record(e: Event)
      modifies this`trace
      ensures trace == old(trace) + [e]
    {
      trace := trace + [e];
    }

    /** A `SingletonProvider` caches its instance. */
    method StoreSingleton(serial: nat, v: Value)
      modifies this`singletons
      ensures singletons == old(singletons)[serial := v]
    {
      singletons := singletons[serial := v];
    }

    /**
     * `addStaticMembers(array)`: an injector not yet held (by `equals`, that is by member) is
     * checked and appended; one already held is neither checked nor added again.  On success
     * the members held are those `AddNew` gives and every injector added is ready.
     */
    method AddStaticMembers(members: seq<MemberInjector>, ghost kept: seq<MemberInjector>, ghost ctor: ExecutableInjector)
      returns (r: Result<()>, ghost added: seq<MemberInjector>)
      requires Valid(ct)
      modifies this`staticMembers, FieldInjectorsOf(members)`provider, ArgumentInjectorsOf(members)`providers
      ensures staticMembers == old(staticMembers) + added
      ensures r.Success? ==> MembersOf(staticMembers) == AddNew(MembersOf(old(staticMembers)), MembersOf(members))
      ensures r.Success? ==> AllReady(added, bindings)
      ensures KeptReady(kept, bindings) && KeptReady(old(staticMembers), bindings)
      ensures old(ctor.providers) != null ==> ctor.providers != null
    {
      added := [];
      ghost var held := staticMembers;
      for i := 0 to |members|
        invariant staticMembers == held + added
        invariant MembersOf(staticMembers) == AddNew(MembersOf(held), MembersOf(members[..i]))
        invariant AllReady(added, bindings)
        invariant KeptReady(kept, bindings) && KeptReady(held, bindings)
        invariant old(ctor.providers) != null ==> ctor.providers != null
      {
        var m := members[i];
        assert m.FieldInjection? ==> m.fieldInjector in FieldInjectorsOf(members);
        assert m.MethodInjection? ==> m.argumentInjector in ArgumentInjectorsOf(members);
        ghost var before := MembersOf(staticMembers);
        var one, more := AddStaticMember(m, kept + staticMembers, ctor);
        if one.Failure? {
          return one, added + more;
        }
        AddedStep(held, members, i, before, MembersOf(staticMembers));
        added := added + more;
      }
      assert members[..|members|] == members;
      r := Success(());
    }

    /** `addStaticMembers` for one injector. */
    method AddStaticMember(m: MemberInjector, ghost kept: seq<MemberInjector>, ghost ctor: ExecutableInjector)
      returns (r: Result<()>, ghost added: seq<MemberInjector>)
      requires Valid(ct)
      modifies this`staticMembers
      modifies (if m.FieldInjection? then {m.fieldInjector} else {})`provider
      modifies (if m.MethodInjection? then {m.argumentInjector} else {})`providers
      ensures staticMembers == old(staticMembers) + added
      ensures r.Success? ==>
                MembersOf(staticMembers) ==
                (var a := MembersOf(old(staticMembers)); if m.Member() in a then a else a + [m.Member()])
      ensures r.Success? ==> AllReady(added, bindings)
      ensures KeptReady(kept, bindings)
      ensures old(ctor.providers) != null ==> ctor.providers != null
    {
      added := [];
      if m.Member() in MembersOf(staticMembers) {
        return Success(()), added;
      }
      r := CheckMember(m, ct, fuel, bindings, kept, ctor);
      if r.Success? {
        MembersOfSnoc(staticMembers, m);
        staticMembers := staticMembers + [m];
        added := [m];
      }
    }

    /**
     * `getProvision(implementation, scope)`: the scopes in enumeration order, the first whose
     * annotation the implementation class carries or which is the binding's scope.
     */
    method GetProvision(implementation: Option<TypeData>, scope: Option<ClassName>) returns (r: Result<Strategy>)
      ensures r == Provision(ct, scopes, implementation, scope)
    {
      var i := 0;
      while i < |scopes|
        invariant 0 <= i <= |scopes|
        invariant Provision(ct, scopes, implementation, scope) == Provision(ct, scopes[i..], implementation, scope)
      {
        if implementation.None? {
          return Failure(NullPointer);
        }
        if Selects(ct, scopes[i], implementation.value, scope) {
          return Success(scopes[i].provision);
        }
        assert scopes[i..][1..] == scopes[i + 1..];
        i := i + 1;
      }
      r := Success(PrototypeStrategy);
    }

    /**
     * `getInstanceProvider(implementation)`: the provider registered for the type, or else a
     * new one, registered only once it was built.  Afterwards the type is registered to the
     * provider returned.
     */
    method GetInstanceProvider(implementation: TypeData) returns (r: Result<InstanceProvider>)
      requires Valid(ct)
      modifies this`instanceProviders
      ensures Registers(ct, implementation, old(instanceProviders), instanceProviders, r)
      ensures r.Success? ==> FindInstanceProvider(instanceProviders, implementation) == Some(r.value)
      ensures old(instanceProviders) <= instanceProviders && AllFresh(instanceProviders, old(instanceProviders))
    {
      var found := FindInstanceProvider(instanceProviders, implementation);
      if found.Some? {
        return Success(found.value);
      }
      r := NewInstanceProvider(ct, fuel, implementation);
      if r.Success? {
        FindExtended(instanceProviders, [r.value], implementation);
        instanceProviders := instanceProviders + [r.value];
      }
    }

    /**
     * `getOrBuildProvider(implementation, scope)`: the provider memoised for the pair, or
     * else one built and memoised.
     */
    method GetOrBuildProvider(implementation: Option<TypeData>, scope: Option<ClassName>) returns (r: Result<Provider>)
      requires Valid(ct)
      modifies this`providers, this`instanceProviders, this`singletonCount
      ensures ProviderKeyOf(implementation, scope) in old(providers) ==>
                r == Success(old(providers)[ProviderKeyOf(implementation, scope)]) && providers == old(providers)
      ensures ProviderKeyOf(implementation, scope) !in old(providers) ==>
                BuiltProvider(ct, scopes, implementation, scope, old(instanceProviders), instanceProviders,
                              old(providers), providers, old(singletonCount), singletonCount, r)
      ensures SubMap(old(providers), providers)
      ensures old(SerialsDistinct(providers, singletonCount)) ==> SerialsDistinct(providers, singletonCount)
      ensures old(instanceProviders) <= instanceProviders && AllFresh(instanceProviders, old(instanceProviders))
    {
      var key := ProviderKeyOf(implementation, scope);
      if key in providers {
        return Success(providers[key]);
      }
      r := BuildAndRegisterProvider(implementation, scope);
    }

    /**
     * `buildAndRegisterProvider`: the provision of the pair, applied to the instance provider
     * of the implementation, then memoised under the pair.  Without an implementation it
     * throws a `NullPointerException`.
     */
    method BuildAndRegisterProvider(implementation: Option<TypeData>, scope: Option<ClassName>) returns (r: Result<Provider>)
      requires Valid(ct) && ProviderKeyOf(implementation, scope) !in providers
      modifies this`providers, this`instanceProviders, this`singletonCount
      ensures BuiltProvider(ct, scopes, implementation, scope, old(instanceProviders), instanceProviders,
                            old(providers), providers, old(singletonCount), singletonCount, r)
      ensures old(SerialsDistinct(providers, singletonCount)) ==> SerialsDistinct(providers, singletonCount)
      ensures old(instanceProviders) <= instanceProviders && AllFresh(instanceProviders, old(instanceProviders))
    {
      var key := ProviderKeyOf(implementation, scope);
      ghost var count0 := singletonCount;
      r := BuildProvider(implementation, scope);
      if r.Success? {
        if SerialsDistinct(providers, count0) {
          SerialsStep(providers, count0, key, r.value, singletonCount);
        }
        providers := providers[key := r.value];
      }
    }

    /** `getProvision(implementation, scope).apply(getInstanceProvider(implementation))`. */
    method BuildProvider(implementation: Option<TypeData>, scope: Option<ClassName>) returns (r: Result<Provider>)
      requires Valid(ct)
      modifies this`instanceProviders, this`singletonCount
      ensures Made(ct, scopes, implementation, scope, old(instanceProviders), instanceProviders,
                   old(singletonCount), singletonCount, r)
      ensures old(instanceProviders) <= instanceProviders && AllFresh(instanceProviders, old(instanceProviders))
    {
      var strategy := GetProvision(implementation, scope);
      if implementation.Some? {
        ProvisionSucceeds(ct, scopes, implementation.value, scope);
      }
      if strategy.Failure? || implementation.None? {
        // `new InstanceProvider(null, ...)` dereferences the type descriptor
        return Failure(NullPointer);
      }
      var source := GetInstanceProvider(implementation.value);
      if source.Failure? {
        return Failure(source.error);
      }
      var p := ApplyProvision(strategy.value, source.value);
      r := Success(p);
    }

    /** `provision.apply(instanceProvider)`: a `SingletonProvider` takes the next allocation number. */
    method ApplyProvision(strategy: Strategy, source: InstanceProvider) returns (p: Provider)
      modifies this`singletonCount
      ensures p == NewProvider(strategy, source, old(singletonCount))
      ensures singletonCount == if p.SingletonScoped? then old(singletonCount) + 1 else old(singletonCount)
    {
      p := NewProvider(strategy, source, singletonCount);
      if p.SingletonScoped? {
        singletonCount := singletonCount + 1;
      }
    }

    /** `provider()` of a builder: its explicit provider, or the one built for its implementation and scope. */
    method ProviderOf(b: Binding) returns (r: Result<Provider>)
      requires Valid(ct)
      modifies this`providers, this`instanceProviders, this`singletonCount
      ensures r.Success? ==> Recorded(b.State(), r.value, providers)
      ensures ChoiceOf(b.State()).Explicit? ==> r.Success? && providers == old(providers)
      ensures SubMap(old(providers), providers)
      ensures old(SerialsDistinct(providers, singletonCount)) ==> SerialsDistinct(providers, singletonCount)
      ensures old(instanceProviders) <= instanceProviders && AllFresh(instanceProviders, old(instanceProviders))
    {
      if b.provider.Some? {
        return Success(b.provider.value);
      }
      r := GetOrBuildProvider(b.implementation, b.scope);
    }

    /** `bindingBuild(typeData)`: a new builder for the type, kept in `builders`. */
    method BindingBuild(t: TypeData) returns (b: Binding)
      modifies this`builders
      ensures fresh(b) && b.State() == NewBinding(t) && builders == old(builders) + [b]
    {
      b := new Binding(t);
      builders := builders + [b];
    }

    /** One `bind` statement of a module: a new builder, then the calls on it in order. */
    method Declare(statement: Bind) returns (ghost b: Binding)
      modifies this`builders
      ensures fresh(b) && builders == old(builders) + [b]
      ensures b.State() == ApplyAll(NewBinding(statement.typeData), statement.calls)
      ensures StatesOf(builders) == old(StatesOf(builders)) + [ApplyAll(NewBinding(statement.typeData), statement.calls)]
    {
      ghost var held := builders;
      var builder := BindingBuild(statement.typeData);
      for i := 0 to |statement.calls|
        invariant builders == old(builders) + [builder]
        invariant builder.State() == ApplyAll(NewBinding(statement.typeData), statement.calls[..i])
      {
        assert statement.calls[..i + 1][..i] == statement.calls[..i];
        builder.Configure(statement.calls[i]);
      }
      assert statement.calls[..|statement.calls|] == statement.calls;
      b := builder;
      StatesOfSnoc(held, b);
    }

    /** `module.install(this::bindingBuild)`: the module's statements, each leaving one more builder. */
    method Install(m: Module)
      modifies this`builders
      ensures StatesOf(builders) == old(StatesOf(builders)) + Declared(m)
    {
      ghost var states0 := StatesOf(builders);
      for i := 0 to |m|
        invariant StatesOf(builders) == states0 + Declared(m[..i])
      {
        ghost var b := Declare(m[i]);
        assert m[..i + 1][..i] == m[..i];
      }
      assert m[..|m|] == m;
    }

    /**
     * The first loop of `build()`: for each builder in order, `key()` then `provider()`, put
     * into `bindings`.  On success the bindings are those the puts give, each from the
     * provider `provider()` returned for that builder.
     */
    method BindAll(ghost states: seq<BindingState>) returns (r: Result<()>, ghost chosen: seq<Provider>)
      requires Valid(ct) && states == StatesOf(builders)
      modifies this`bindings, this`providers, this`instanceProviders, this`singletonCount
      ensures r.Success? ==> Bound(old(bindings), states, chosen, bindings, providers)
      ensures SubMap(old(providers), providers)
      ensures old(SerialsDistinct(providers, singletonCount)) ==> SerialsDistinct(providers, singletonCount)
      ensures old(instanceProviders) <= instanceProviders && AllFresh(instanceProviders, old(instanceProviders))
    {
      chosen := [];
      ghost var bindings0, providers0, ips0 := bindings, providers, instanceProviders;
      ghost var serials := SerialsDistinct(providers, singletonCount);
      for i := 0 to |builders|
        invariant Bound(bindings0, states[..i], chosen, bindings, providers)
        invariant SubMap(providers0, providers)
        invariant serials ==> SerialsDistinct(providers, singletonCount)
        invariant ips0 <= instanceProviders && AllFresh(instanceProviders, ips0)
      {
        var b := builders[i];
        var key := b.Key();
        ghost var p0, ips1 := providers, instanceProviders;
        var p := ProviderOf(b);
        if p.Failure? {
          return Failure(p.error), chosen;
        }
        BoundStep(bindings0, states, i, chosen, bindings, p0, providers, p.value);
        bindings := bindings[key := p.value];
        chosen := chosen + [p.value];
      }
      assert states[..|builders|] == states;
      r := Success(());
    }

    /**
     * The second loop of `build()`: `initProviders()` of every registered instance provider,
     * in registration order.  On success the static members held are those `AddNewAll`
     * gives and every one added is ready; those held before stay ready.
     */
    method InitAll() returns (r: Result<()>, ghost added: seq<MemberInjector>)
      requires Valid(ct)
      modifies this`staticMembers, OwnedFields(instanceProviders)`provider, OwnedArguments(instanceProviders)`providers
      ensures staticMembers == old(staticMembers) + added
      ensures r.Success? ==> MembersOf(staticMembers) == AddNewAll(MembersOf(old(staticMembers)), StaticListsOf(instanceProviders))
      ensures r.Success? ==> AllReady(added, bindings)
      ensures KeptReady(old(staticMembers), bindings)
    {
      added := [];
      r := Success(());
      ghost var held := staticMembers;
      for i := 0 to |instanceProviders|
        invariant staticMembers == held + added
        invariant MembersOf(staticMembers) == AddNewAll(MembersOf(held), StaticListsOf(instanceProviders[..i]))
        invariant AllReady(added, bindings)
        invariant KeptReady(held, bindings)
      {
        var ip := instanceProviders[i];
        OwnedContains(instanceProviders, i);
        ghost var more;
        ghost var before := MembersOf(staticMembers);
        r, more := ip.InitProviders(this);
        Associative(held, added, more);
        added := added + more;
        if r.Failure? {
          return;
        }
        AddNewAllStep(MembersOf(held), instanceProviders, i, before, MembersOf(staticMembers));
      }
      assert instanceProviders[..|instanceProviders|] == instanceProviders;
    }

    /**
     * `staticMembers.sort(this::compareMembers)`: the list's first ascending run under
     * `compareMembers` is the whole list, so the sort moves nothing and the list it leaves
     * is ordered by the comparator.
     */
    method SortStaticMembers() returns (sorted: seq<MemberInjector>)
      requires Valid(ct)
      ensures sorted == staticMembers
      ensures AscendingRun(ct, MembersOf(sorted))
    {
      sorted := staticMembers;
      if |staticMembers| >= 2 {
        var runHi := CountAscendingRun(ct, MembersOf(staticMembers));
      }
    }

    /**
     * The last two statements of `build()`: the sort, then `inject(null)` of every static
     * member in order.  Events are only appended, and on success those about static state
     * are one injection per static member that has something to inject.
     */
    method InjectStatic(depth: nat) returns (r: Result<()>)
      requires Valid(ct)
      modifies this`trace, this`nextId, this`preDestroy, this`singletons
      ensures old(trace) <= trace
      ensures r.Success? ==> InjectionsOf(EventsOf(trace[|old(trace)|..], Null), Null, Emitting(staticMembers))
      ensures old(AllReady(staticMembers, bindings)) ==> AllReady(staticMembers, bindings)
    {
      var sorted := SortStaticMembers();
      r := InjectMembers(sorted, this, Null, depth);
    }

    /**
     * `build()`, run once from the constructor, before any instance provider or static
     * member exists: every builder bound in order, the builders dropped, every instance
     * provider initialised, then the static members injected in order.  On success the
     * bindings are the puts the builders give, every static member is ready, and the events
     * about static state are one injection per static member that has something to inject.
     */
    method Build(depth: nat) returns (r: Result<()>, ghost chosen: seq<Provider>)
      requires Valid(ct) && instanceProviders == [] && staticMembers == []
      requires SerialsDistinct(providers, singletonCount)
      modifies this`builders, this`bindings, this`providers, this`instanceProviders, this`singletonCount
      modifies this`staticMembers, this`trace, this`nextId, this`preDestroy, this`singletons
      ensures r.Success? ==> builders == []
      ensures r.Success? ==> Bound(old(bindings), old(StatesOf(builders)), chosen, bindings, providers)
      ensures r.Success? ==> MembersOf(staticMembers) == AddNewAll([], StaticListsOf(instanceProviders))
      ensures r.Success? ==> AllReady(staticMembers, bindings)
      ensures old(trace) <= trace
      ensures r.Success? ==> InjectionsOf(EventsOf(trace[|old(trace)|..], Null), Null, Emitting(staticMembers))
      ensures SerialsDistinct(providers, singletonCount)
    {
      r, chosen := BindBuilders();
      if r.Failure? {
        return;
      }
      r := InitStatic(depth);
    }

    /** The first two statements of `build()`: every builder bound in order, then the builders dropped. */
    method BindBuilders() returns (r: Result<()>, ghost chosen: seq<Provider>)
      requires Valid(ct)
      modifies this`bindings, this`providers, this`instanceProviders, this`singletonCount, this`builders
      ensures r.Success? ==> builders == []
      ensures r.Success? ==> Bound(old(bindings), old(StatesOf(builders)), chosen, bindings, providers)
      ensures old(SerialsDistinct(providers, singletonCount)) ==> SerialsDistinct(providers, singletonCount)
      ensures old(instanceProviders) <= instanceProviders && AllFresh(instanceProviders, old(instanceProviders))
    {
      r, chosen := BindAll(StatesOf(builders));
      if r.Success? {
        builders := [];
      }
    }

    /**
     * The rest of `build()`: every instance provider initialised, then the static members
     * sorted and injected.  On success the static members are those `AddNewAll` gives, all
     * ready, and the events about static state are one injection per static member that has
     * something to inject.
     */
    method InitStatic(depth: nat) returns (r: Result<()>)
      requires Valid(ct) && staticMembers == []
      modifies this`staticMembers, OwnedFields(instanceProviders)`provider, OwnedArguments(instanceProviders)`providers
      modifies this`trace, this`nextId, this`preDestroy, this`singletons
      ensures r.Success? ==> MembersOf(staticMembers) == AddNewAll([], StaticListsOf(instanceProviders))
      ensures r.Success? ==> AllReady(staticMembers, bindings)
      ensures old(trace) <= trace
      ensures r.Success? ==> InjectionsOf(EventsOf(trace[|old(trace)|..], Null), Null, Emitting(staticMembers))
    {
      ghost var added;
      r, added := InitAll();
      if r.Failure? {
        return;
      }
      r := InjectStatic(depth);
    }

    /** `getProvider(key)`: the provider bound to the key, or null for an unbound key. */
    function GetProvider(key: BindingKey): (r: Option<Provider>)
      reads this`bindings
      ensures r.Some? <==> key in bindings
      ensures r.Some? ==> r.value == bindings[key]
    {
      Lookup(bindings, key)
    }

    /** `destroy()`: every registered teardown hook, front to back. */
    method Destroy()
      modifies this`trace
      ensures trace == old(trace) + Teardown(preDestroy)
    {
      for i := 0 to |preDestroy|
        invariant trace == old(trace) + Teardown(preDestroy[..i])
      {
        assert preDestroy[..i + 1][..i] == preDestroy[..i];
        Record(PreDestroyed(preDestroy[i].instance, preDestroy[i].methodInfo));
      }
      assert preDestroy[..|preDestroy|] == preDestroy;
    }

    /** The installs of the constructor: the base module, then `first`, then each of `rest`. */
    method InstallModules(first: Module, rest: seq<Module>)
      modifies this`builders
      requires builders == []
      ensures StatesOf(builders) == Declarations(first, rest)
    {
      ghost var states0 := StatesOf(builders);
      Install(BaseModule());
      Install(first);
      Associative(states0, Declared(BaseModule()), Declared(first));
      InstallAll(rest);
      Associative(states0, Declared(BaseModule()) + Declared(first), AllDeclared(rest));
      assert states0 == [];
    }

    /** `module.install` for several modules in order. */
    method InstallAll(modules: seq<Module>)
      modifies this`builders
      ensures StatesOf(builders) == old(StatesOf(builders)) + AllDeclared(modules)
    {
      ghost var states0 := StatesOf(builders);
      for i := 0 to |modules|
        invariant StatesOf(builders) == states0 + AllDeclared(modules[..i])
      {
        Install(modules[i]);
        assert modules[..i + 1][..i] == modules[..i];
        assert AllDeclared(modules[..i + 1]) == AllDeclared(modules[..i]) + Declared(modules[i]);
        Associative(states0, AllDeclared(modules[..i]), Declared(modules[i]));
      }
      assert modules[..|modules|] == modules;
    }

    /** `addPreDestroy`: the hook goes to the front, so the latest registered runs first. */
    method AddPreDestroy(hook: Hook)
      modifies this`preDestroy
      ensures preDestroy == [hook] + old(preDestroy)
    {
      preDestroy := [hook] + preDestroy;
    }
  }

  /** The binding states the modules declare: the base module, then `first`, then each of `rest`. */
  function Declarations(first: Module, rest: seq<Module>): seq<BindingState> {
    Declared(BaseModule()) + Declared(first) + AllDeclared(rest)
  }

  /** The binding of `Injector` to the injector itself is declared first. */
  lemma BaseDeclaredFirst(first: Module, rest: seq<Module>)
    ensures |Declarations(first, rest)| > 0 && Declarations(first, rest)[0] == Declared(BaseModule())[0]
  {
    assert |Declared(BaseModule())| == 1;
  }

  /** The scope map the constructor fills: `Singleton` first, then each extra scope in order. */
  method ScopeTable(extraScopes: seq<ScopeKey>) returns (s: seq<ScopeKey>)
    ensures s == PutScopes([ScopeKey(SingletonAnnotation, SingletonStrategy)], extraScopes)
  {
    s := [ScopeKey(SingletonAnnotation, SingletonStrategy)];
    for i := 0 to |extraScopes|
      invariant s == PutScopes([ScopeKey(SingletonAnnotation, SingletonStrategy)], extraScopes[..i])
    {
      assert extraScopes[..i + 1][..i] == extraScopes[..i];
      s := PutScope(s, extraScopes[i]);
    }
    assert extraScopes[..|extraScopes|] == extraScopes;
  }

  /**
    * The `AbstractInjector(module, modules...)` constructor: the scopes registered (`extraScopes`
    * is what `getScopes()` returns, empty for `BaseInjector`), the base module binding
    * `Injector` to the injector itself, `first` and `rest` installed in order, then `build()`.
    */
  method NewInjector(ct: ClassTable, fuel: nat, extraScopes: seq<ScopeKey>, first: Module, rest: seq<Module>, depth: nat)
    returns (r: Result<Injector>, ghost chosen: seq<Provider>)
    requires Valid(ct)
    ensures r.Success? ==> fresh(r.value) && r.value.ct == ct && r.value.fuel == fuel
    ensures r.Success? ==> r.value.scopes == PutScopes([ScopeKey(SingletonAnnotation, SingletonStrategy)], extraScopes)
    ensures r.Success? ==> Bound(map[], Declarations(first, rest), chosen, r.value.bindings, r.value.providers)
  {
    var inj := new Injector(ct, fuel, extraScopes);
    ghost var scopes := inj.scopes;
    inj.InstallModules(first, rest);
    ghost var states, bindings0 := StatesOf(inj.builders), inj.bindings;
    assert states == Declarations(first, rest) && bindings0 == map[];
    var built;
    built, chosen := inj.Build(depth);
    assert inj.scopes == scopes;
    if built.Failure? {
      return Failure(built.error), chosen;
    }
    r := Success(inj);
  }

}
