# tdi: a verified model of a JSR-330 dependency-injection container

This project models the core of `tdi`, a small Java implementation of JSR-330 (`javax.inject`)
dependency injection, and proves properties of the model in Dafny. It covers two parts.

- **The type-descriptor algebra** of `es.danpintas.reflect.Types` and `TypeData`:
  - the library's own parameterized, generic-array and wildcard descriptors, with the checks
    their constructors make;
  - `canonicalize`, `isFullySpecified`, `getRawType`, the structural `typeEquals` and the
    descriptors' hash codes;
  - the generic-supertype lookup over interfaces and superclasses, and type-variable lookup;
  - the substitution loop of `TypeData.resolveType`;
  - the type hierarchy and the method-override relation.
- **The binding and provider graph** of `es.danpintas.tdi`:
  - the `Binding` builder and its keys;
  - field, method and constructor injectors with their `providerCheck`;
  - `InstanceProvider`: its member-collection pipeline, constructor and hook selection,
    `get()` and `initProviders()`;
  - `SingletonProvider`'s cache;
  - the `AbstractInjector` constructor, `build()`, scope selection, the two-level memoisation
    of providers, static-member registration and LIFO teardown.

Java reflection is replaced by a **class table** (module `Reflect`). It maps each class name to
the following:

- its package and kind;
- its superclass and direct interfaces;
- its generic supertypes and type parameters;
- its annotations and declared fields, methods and constructors.

A `rank` field witnesses that the hierarchy is acyclic. `IsAssignableFrom` is the
reflexive-transitive closure of the superclass and interface edges.

Objects built by the container are numbered values (`Created(n)`, with `Null` for Java's
`null`). What reflection does to them is recorded in an event trace kept by the injector:

- construction;
- field assignment;
- method invocation;
- the post-construct and pre-destroy calls.

The model's shape follows the code.

- Pure recursive code (canonicalisation, equality, hashing, the supertype search, override
  checks) becomes functions with lemmas.
- Loops become methods proved equal to a specification function. Examples are
  `getInterfaceGenericSupertype`, `resolveType`, `resolveParameterizedType`,
  `getTypeHierarchy`, `removeOverridenSub`, the annotation scans of `TypeUtils` and the loops
  of `build()`.
- Java objects whose fields change become classes with field-granular `modifies` frames:
  `Binding`, `FieldInjector`, `ExecutableInjector`, `InstanceProvider` and `AbstractInjector`.
- The `ParameterizedTypeImpl` constructor rewrites its cloned argument array in place.
  `ExecutableInjector.providerCheck` fills a fresh array of providers. Both keep `array`s.

Modules, leaves first:

- `Results`: the error kinds, and a `Result` that stands for a thrown exception.
- `Reflect`: the class table.
- `Types`: descriptors, canonicalisation, equality and hashing.
- `Resolution`: `TypeData`.
- `Hierarchy`: supertype lookup, variable lookup, the type hierarchy and overrides.
- `Keys`: `AbstractKey` and its binding and provider keys.
- `TypeUtils`.
- `Members`: the member pipeline of `InstanceProvider` and `compareMembers`.
- `Container`: bindings, injectors, providers and the injector.
- `Scenarios`: a worked example (`IntBox extends Box<Integer>`) showing a field of type `E`
  resolved to `Integer`.

Error paths are modelled as they are in the code:

- a `null` that would be dereferenced becomes `NullPointer`;
- `IllegalArgumentException` and `InjectException` each become an error of their own;
- where Java would loop without end or overflow its stack, the model stops at a fuel or depth bound with `BoundExhausted`.

## Model

| member | source | states |
|---|---|---|
| Types.CheckNotPrimitive | tdi-core/src/main/java/es/danpintas/reflect/Types.java:580-583 | Succeeds exactly when the type is not a primitive class; otherwise fails with the primitive-argument error. |
| Types.EnsureOwnerType | tdi-core/src/main/java/es/danpintas/reflect/Types.java:125-133 | Succeeds exactly when an owner is given iff the raw class is nested. A missing owner of a nested class and an owner of a top-level class each fail with their own error. |
| Types.NewParameterized | tdi-core/src/main/java/es/danpintas/reflect/Types.java:51-60 | An owner mismatch fails with the owner check's error. With a well-placed owner, a primitive argument makes it fail. On success the owner's presence matches the nesting, no argument is primitive, and the result is a library descriptor of the same raw class and arity. It has the same erasure and the same variables as the input, and it is canonical when the input is well formed. |
| Types.NewParameterizedFirstPrimitive | tdi-core/src/main/java/es/danpintas/reflect/Types.java:51-60 | Suppose the owner is well placed and canonicalises, and the first failing argument is primitive. Then the constructor fails with `PrimitiveNotAllowed`. |
| Types.CanonicalizeOwner | tdi-core/src/main/java/es/danpintas/reflect/Types.java:51-60 | The owner is canonicalised keeping its presence, its erasure and its variables; the result is canonical for a well-formed owner. |
| Types.CanonicalizeArgs | tdi-core/src/main/java/es/danpintas/reflect/Types.java:51-60 | Every argument is checked not to be primitive and canonicalised, keeping the count, the erasure and the variables; the result is canonical for well-formed arguments. |
| Types.CanonicalizeArgsFirstPrimitive | tdi-core/src/main/java/es/danpintas/reflect/Types.java:55-59 | When every argument before a primitive one passes its check and canonicalises, the loop fails with `PrimitiveNotAllowed`. |
| Types.NewParameterizedType | tdi-core/src/main/java/es/danpintas/reflect/Types.java:51-60 | Cloning the argument array and rewriting it slot by slot gives exactly the descriptor, or the error, that `NewParameterized` specifies. |
| Types.CanonicalizeSlots | tdi-core/src/main/java/es/danpintas/reflect/Types.java:55-59 | The in-place loop leaves in the array the canonical arguments `CanonicalizeArgs` gives, or fails with the error of the first slot that throws. |
| Types.NewGenericArray | tdi-core/src/main/java/es/danpintas/reflect/Types.java:144-146 | The result is a library array descriptor of the same erasure and variables, canonical when the component is well formed. |
| Types.NewWildcard | tdi-core/src/main/java/es/danpintas/reflect/Types.java:182-199 | More than one lower bound, a number of upper bounds other than one, and a lower bound under a non-Object upper bound each fail with their own error. On success there is one upper bound and at most one lower bound, a lower bound only under Object, and no primitive bound. |
| Types.ParameterizedType | tdi-core/src/main/java/es/danpintas/reflect/Types.java:253-255 | A nested raw class fails with the missing-owner error. A success is an ownerless parameterized type of that raw class and arity, with the erasure of the input. |
| Types.ParameterizedTypeWithOwner | tdi-core/src/main/java/es/danpintas/reflect/Types.java:265-268 | An owner mismatch fails with the owner check's error. A success is a parameterized type of that raw class and arity, with an owner iff one was given, and the erasure of the input. |
| Types.ArrayOfType | tdi-core/src/main/java/es/danpintas/reflect/Types.java:276-278 | Succeeds exactly when the component canonicalises, giving the library array descriptor over the canonical component. |
| Types.SubtypeOf | tdi-core/src/main/java/es/danpintas/reflect/Types.java:286-288 | A primitive bound fails with the primitive-argument error. Otherwise it succeeds exactly when the bound canonicalises, giving `? extends` the canonical bound. |
| Types.SupertypeOf | tdi-core/src/main/java/es/danpintas/reflect/Types.java:296-298 | A primitive bound fails with the primitive-argument error. Otherwise it succeeds exactly when the bound canonicalises, giving `? super` the canonical bound under the upper bound Object. |
| Types.Canonicalize | tdi-core/src/main/java/es/danpintas/reflect/Types.java:373-395 | On success the result is no larger than the input and canonical for well-formed input. It keeps the erasure, the variables and the raw type. |
| Types.CanonicalizeIdempotent | tdi-core/src/main/java/es/danpintas/reflect/Types.java:373-395 | `canonicalize(canonicalize(t)) == canonicalize(t)`, and a canonical descriptor is its own canonical form. |
| Types.GetRawTypeDefined | tdi-core/src/main/java/es/danpintas/reflect/Types.java:403-423 | `getRawType` fails exactly on a wildcard, possibly inside array descriptors, and then with `IllegalArgumentException`. |
| Types.GetRawType | tdi-core/src/main/java/es/danpintas/reflect/Types.java:403-423 | `getRawType` over descriptors. `GetRawTypeDefined` and `ClassRawTypeRoundTrip` state its properties. |
| Types.ClassRawTypeRoundTrip | tdi-core/src/main/java/es/danpintas/reflect/Types.java:403-423 | The raw type of a canonicalised class, array classes included, is that class again. |
| Types.TypeEqualsStructural | tdi-core/src/main/java/es/danpintas/reflect/Types.java:432-487 | `typeEquals` holds iff the two descriptors have the same shape, comparing owner, raw class, arguments, components, bounds and variable declarations, whoever implemented them. |
| Types.TypeEquals | tdi-core/src/main/java/es/danpintas/reflect/Types.java:432-487 | `typeEquals` over descriptors. `TypeEqualsStructural`, `TypeEqualsEquivalence` and `CanonicalTypeEquals` state its properties. |
| Types.TypeEqualsEquivalence | tdi-core/src/main/java/es/danpintas/reflect/Types.java:432-487 | `typeEquals` is reflexive, symmetric and transitive. |
| Types.CanonicalTypeEquals | tdi-core/src/main/java/es/danpintas/reflect/Types.java:432-487 | On canonical descriptors `typeEquals` coincides with equality of values. |
| Types.HashConsistent | tdi-core/src/main/java/es/danpintas/reflect/Types.java:103-105 | Descriptors that `typeEquals` relates have the same 32-bit hash code. |
| Types.Hash | tdi-core/src/main/java/es/danpintas/reflect/Types.java:103-109 | The `hashCode` of each descriptor implementation, in 32-bit arithmetic. `HashConsistent`, `ParamHash` and `WildHash` state its properties. |
| Types.ParamHash | tdi-core/src/main/java/es/danpintas/reflect/Types.java:103-105 | Parameterized descriptors with the same raw class, owners and arguments hashing alike hash alike, whatever their implementation. |
| Types.WildHash | tdi-core/src/main/java/es/danpintas/reflect/Types.java:223-225 | Wildcards whose first bounds hash alike hash alike, whatever their implementation. |
| Types.FullySpecifiedIffNoVariables | tdi-core/src/main/java/es/danpintas/reflect/Types.java:352-364 | For a descriptor that canonicalises, `isFullySpecified` answers true exactly when it contains no type variable. |
| Types.IsFullySpecified | tdi-core/src/main/java/es/danpintas/reflect/Types.java:352-364 | `isFullySpecified` over descriptors. `FullySpecifiedIffNoVariables` and `CanonicalFullySpecified` state its properties. |
| Types.CanonicalFullySpecified | tdi-core/src/main/java/es/danpintas/reflect/Types.java:78-94 | The descriptors' own `isFullySpecified` answers true exactly when no variable occurs in them. |
| Resolution.Get | tdi-core/src/main/java/es/danpintas/reflect/TypeData.java:43-54 | On success the stored descriptor is canonical and has the input's erasure, and its raw class and hash are those of the stored descriptor. `get` fails only when canonicalisation or `getRawType` does. |
| Resolution.GetIdempotent | tdi-core/src/main/java/es/danpintas/reflect/TypeData.java:43-54 | Getting the data of a descriptor a `TypeData` already holds gives that same `TypeData`. |
| Resolution.EqualsConsistentWithHash | tdi-core/src/main/java/es/danpintas/reflect/TypeData.java:71-78 | Equal `TypeData` have equal hash codes. |
| Resolution.EqualsIsIdentity | tdi-core/src/main/java/es/danpintas/reflect/TypeData.java:76-78 | For data of canonical descriptors `equals` is equality of values. |
| Resolution.EqualsEquivalence | tdi-core/src/main/java/es/danpintas/reflect/TypeData.java:76-78 | `equals` is an equivalence relation. |
| Resolution.Equals | tdi-core/src/main/java/es/danpintas/reflect/TypeData.java:76-78 | `TypeData.equals`. `EqualsEquivalence`, `EqualsIsIdentity` and `EqualsConsistentWithHash` state its properties. |
| Resolution.ResolveType | tdi-core/src/main/java/es/danpintas/reflect/TypeData.java:97-116 | The `while (true)` substitution loop computes exactly `Resolved`, including its errors. It fails with `BoundExhausted` when the fuel standing for the endless loop runs out. |
| Resolution.Resolved | tdi-core/src/main/java/es/danpintas/reflect/TypeData.java:97-160 | `resolveType` as a function, against which the loop `ResolveType` is proved. `ResolveWithoutVariables` and `ResolveKeepsKind` state its properties. |
| Resolution.ResolveWithoutVariables | tdi-core/src/main/java/es/danpintas/reflect/TypeData.java:97-116 | A descriptor without variables resolves to itself in any context, so a class resolves to itself and nothing is rebuilt. |
| Resolution.ResolveKeepsKind | tdi-core/src/main/java/es/danpintas/reflect/TypeData.java:97-116 | Resolution keeps the kind of a non-variable descriptor. A parameterized type keeps its raw class, arity and owner presence, an array stays an array, a wildcard stays a wildcard, and a class is unchanged. |
| Resolution.ResolveGenericArrayType | tdi-core/src/main/java/es/danpintas/reflect/TypeData.java:118-122 | The method computes the component-wise array resolution, returning the original when the component is unchanged. |
| Resolution.ResolveParameterizedType | tdi-core/src/main/java/es/danpintas/reflect/TypeData.java:124-142 | The method computes the resolution of the owner and the arguments, and builds a new descriptor only when one of them changed. |
| Resolution.ResolveArgs | tdi-core/src/main/java/es/danpintas/reflect/TypeData.java:124-142 | The copy-on-write loop gives the arguments resolved in order, or the first failure, and its `changed` flag is true exactly when the result differs from the original list. |
| Resolution.ResolveArgsPointwise | tdi-core/src/main/java/es/danpintas/reflect/TypeData.java:124-142 | Entry `i` of the resolved arguments is the resolution of argument `i`. |
| Resolution.ResolveWildcardType | tdi-core/src/main/java/es/danpintas/reflect/TypeData.java:144-160 | The method computes the wildcard resolution: a lower-bounded wildcard is rebuilt from the resolved lower bound only, and an upper-bounded one from its upper bound, and the original is returned when nothing changed. |
| Resolution.ResolvedAll | tdi-core/src/main/java/es/danpintas/reflect/TypeData.java:85-91 | `resolveAll` gives one `TypeData` per descriptor. |
| Resolution.ResolveAll | tdi-core/src/main/java/es/danpintas/reflect/TypeData.java:85-91 | Filling the list slot by slot gives exactly `ResolvedAll`. |
| Resolution.ResolveAllPointwise | tdi-core/src/main/java/es/danpintas/reflect/TypeData.java:85-91 | Entry `i` of `resolveAll` is the data of descriptor `i` resolved. |
| Resolution.ResolvedAllCharacterised | tdi-core/src/main/java/es/danpintas/reflect/TypeData.java:85-91 | `resolveAll` succeeds exactly when every descriptor resolves, and then holds their data in order. Otherwise it fails with the error of the first descriptor that does not resolve. |
| Resolution.GetSupertype | tdi-core/src/main/java/es/danpintas/reflect/TypeData.java:170-174 | A class that is not a supertype of the raw type fails with `IllegalArgumentException`. For a supertype the result is the generic view of it found by `getGenericSupertype`, resolved in this context, or that lookup's error. A result holds its descriptor's raw type and hash. |
| Resolution.CheckAssignableMember | tdi-core/src/main/java/es/danpintas/reflect/TypeData.java:220-223 | Succeeds exactly when the declaring class is a supertype of the raw type, and otherwise fails with the given error. |
| Resolution.GetFieldType | tdi-core/src/main/java/es/danpintas/reflect/TypeData.java:182-185 | A field of a class that is not a supertype fails; otherwise the result is the field's generic type resolved in this context. |
| Resolution.GetReturnType | tdi-core/src/main/java/es/danpintas/reflect/TypeData.java:193-196 | A method of a class that is not a supertype fails; otherwise the result is its generic return type resolved in this context. |
| Resolution.GetParameterTypes | tdi-core/src/main/java/es/danpintas/reflect/TypeData.java:204-207 | An executable of a class that is not a supertype fails with its kind's error. For a supertype's executable the result succeeds exactly when every generic parameter type resolves, and entry `i` is then the resolved data of parameter `i`. |
| Resolution.GetExceptionTypes | tdi-core/src/main/java/es/danpintas/reflect/TypeData.java:215-218 | An executable of a class that is not a supertype fails with its kind's error. For a supertype's executable the result succeeds exactly when every generic exception type resolves, and entry `i` is then the resolved data of exception type `i`. |
| Hierarchy.InterfaceGenericSupertype | tdi-core/src/main/java/es/danpintas/reflect/Types.java:519-529 | The indexed loop with early returns computes exactly the interface search `InterfaceSupertype` specifies. |
| Hierarchy.HierarchyGenericSupertype | tdi-core/src/main/java/es/danpintas/reflect/Types.java:531-543 | The loop up the superclass chain computes exactly the superclass search `HierarchySupertype` specifies. |
| Hierarchy.GenericSupertypeIsOfTarget | tdi-core/src/main/java/es/danpintas/reflect/Types.java:510-543 | Whatever `getGenericSupertype(type, raw, target)` returns has `target` as its raw type, when `type`'s raw type is `raw` and the table's generic supertypes erase to its supertypes. |
| Hierarchy.GenericSupertypeFails | tdi-core/src/main/java/es/danpintas/reflect/Types.java:510-543 | The lookup fails, with a `NullPointerException`, exactly when it has to walk up from a primitive class to another target. |
| Hierarchy.GenericSupertypeOfUnrelated | tdi-core/src/main/java/es/danpintas/reflect/Types.java:510-543 | A target that is not a supertype of a reference class comes back erased. |
| Hierarchy.GenericSupertype | tdi-core/src/main/java/es/danpintas/reflect/Types.java:510-517 | `getGenericSupertype`. `GenericSupertypeIsOfTarget`, `GenericSupertypeFails` and `GenericSupertypeOfUnrelated` state its properties. |
| Hierarchy.DeclaringClassOf | tdi-core/src/main/java/es/danpintas/reflect/Types.java:575-578 | Answers a class exactly for a variable declared by a class, and then that class. |
| Hierarchy.FirstIndex | tdi-core/src/main/java/es/danpintas/reflect/Types.java:566-573 | Succeeds exactly when the name occurs, with its first position; otherwise fails with `NoSuchElementException`. |
| Hierarchy.IndexOf | tdi-core/src/main/java/es/danpintas/reflect/Types.java:566-573 | The search loop returns exactly `FirstIndex`. |
| Hierarchy.ResolveExecutableVariable | tdi-core/src/main/java/es/danpintas/reflect/Types.java:553-564 | A variable declared by a method or constructor is returned unchanged. |
| Hierarchy.ResolveUnrelatedVariable | tdi-core/src/main/java/es/danpintas/reflect/Types.java:553-564 | A variable of a class that is not a supertype of the reference class is returned unchanged. |
| Hierarchy.ResolveViewedVariable | tdi-core/src/main/java/es/danpintas/reflect/Types.java:553-564 | When the view of the declaring class is parameterized, the result is the argument at the variable's position among that class's type parameters. |
| Hierarchy.ResolveUnviewedVariable | tdi-core/src/main/java/es/danpintas/reflect/Types.java:553-564 | A variable of a class whose view from the reference type is not parameterized is left as it is, for a related class as for an unrelated one. |
| Hierarchy.ResolveTypeVariable | tdi-core/src/main/java/es/danpintas/reflect/Types.java:553-564 | `resolveTypeVariable`. `ResolveExecutableVariable`, `ResolveUnrelatedVariable`, `ResolveViewedVariable` and `ResolveUnviewedVariable` state its cases. |
| Hierarchy.GetTypeHierarchy | tdi-core/src/main/java/es/danpintas/reflect/Types.java:591-599 | The do-while inserting at the front computes exactly `TypeHierarchy`. |
| Hierarchy.TypeHierarchyChain | tdi-core/src/main/java/es/danpintas/reflect/Types.java:591-599 | The hierarchy ends with `c` and each class is the superclass of the next. It starts below Object, every class in it is a supertype of `c`, and Object is in it only when `c` is Object. |
| Hierarchy.TypeHierarchyRanks | tdi-core/src/main/java/es/danpintas/reflect/Types.java:591-599 | Ranks grow strictly along the hierarchy, so no class occurs twice. |
| Hierarchy.TypeHierarchy | tdi-core/src/main/java/es/danpintas/reflect/Types.java:591-599 | `getTypeHierarchy` as a function, against which the loop `GetTypeHierarchy` is proved. `TypeHierarchyChain` and `TypeHierarchyRanks` state its properties. |
| Hierarchy.GetMethods | tdi-core/src/main/java/es/danpintas/reflect/Types.java:607-613 | The copy loop returns the declared methods in order. |
| Hierarchy.OverrideReflexive | tdi-core/src/main/java/es/danpintas/reflect/Types.java:622-625 | A method overrides itself exactly when it is not private. |
| Hierarchy.OverrideAccess | tdi-core/src/main/java/es/danpintas/reflect/Types.java:639-655 | A private method is never overridden. A public one is overridden only by public methods and a protected one only by public or protected ones. A package-private one is overridden exactly from its own package. |
| Hierarchy.OverrideTransitiveInPackage | tdi-core/src/main/java/es/danpintas/reflect/Types.java:622-625 | Within one package the override relation is transitive. |
| Hierarchy.IsOverride | tdi-core/src/main/java/es/danpintas/reflect/Types.java:622-637 | `isOverride`: same name, return type and parameter types, with valid modifiers. `OverrideReflexive` and `OverrideTransitiveInPackage` state its properties. |
| Hierarchy.AreValidOverrideModifiers | tdi-core/src/main/java/es/danpintas/reflect/Types.java:639-655 | `areValidOverrideModifiers`. `OverrideAccess` states its four rules. |
| Keys.KeyEqualsBasics | tdi-core/src/main/java/es/danpintas/tdi/keys/AbstractKey.java:37-43 | A key equals itself, and never null or a key of another concrete class, so a binding key never equals a provider key. |
| Keys.KeyEqualsComponents | tdi-core/src/main/java/es/danpintas/tdi/keys/AbstractKey.java:44-55 | Keys of one class are equal exactly when both components are, null equal only to null. |
| Keys.KeyHashConsistent | tdi-core/src/main/java/es/danpintas/tdi/keys/AbstractKey.java:28-34 | With component hashes consistent with component equality, equal keys hash equally under `31 * (31 + h(a)) + h(b)` in 32-bit arithmetic. |
| Keys.KeyEquals | tdi-core/src/main/java/es/danpintas/tdi/keys/AbstractKey.java:37-56 | `AbstractKey.equals`. `KeyEqualsBasics` and `KeyEqualsComponents` state its properties. |
| Keys.KeyHash | tdi-core/src/main/java/es/danpintas/tdi/keys/AbstractKey.java:28-34 | `AbstractKey.hashCode`. `KeyHashConsistent` states its properties. |
| Keys.BindingKeyEqualsIsIdentity | tdi-core/src/main/java/es/danpintas/tdi/keys/AbstractKey.java:37-56 | Over canonical `TypeData`, binding-key equality is equality of values, so a map keyed by values behaves as the `HashMap`. |
| Keys.ProviderKeyEqualsIsIdentity | tdi-core/src/main/java/es/danpintas/tdi/keys/AbstractKey.java:37-56 | Over canonical `TypeData`, provider-key equality is equality of values. |
| Keys.BindingKeyHashConsistent | tdi-core/src/main/java/es/danpintas/tdi/keys/AbstractKey.java:28-34 | Equal binding keys over coherent `TypeData` hash equally. |
| TypeUtils.GetInjectFields | tdi-core/src/main/java/es/danpintas/tdi/utils/TypeUtils.java:32-39 | The loop returns the declared fields carrying `@Inject`, in declaration order. |
| TypeUtils.InjectFieldsExactly | tdi-core/src/main/java/es/danpintas/tdi/utils/TypeUtils.java:32-39 | A field is returned iff it is declared and carries `@Inject`, as often as it is declared. |
| TypeUtils.GetOnlyNoArgAnnotatedMethod | tdi-core/src/main/java/es/danpintas/tdi/utils/TypeUtils.java:61-78 | The loop over the class's own declared methods computes exactly the scan `HookScan` specifies. |
| TypeUtils.GetPostConstructMethod | tdi-core/src/main/java/es/danpintas/tdi/utils/TypeUtils.java:47-49 | The scan for `@PostConstruct` over the class's own declared methods. |
| TypeUtils.GetPreDestroyMethod | tdi-core/src/main/java/es/danpintas/tdi/utils/TypeUtils.java:57-59 | The scan for `@PreDestroy` over the class's own declared methods. |
| TypeUtils.HookScanCharacterised | tdi-core/src/main/java/es/danpintas/tdi/utils/TypeUtils.java:61-78 | The result is null when no method is annotated, and the single annotated method when it takes no arguments. It throws when an annotated method taking arguments or a second annotated method is met first. |
| TypeUtils.GetInjectConstructor | tdi-core/src/main/java/es/danpintas/tdi/utils/TypeUtils.java:87-102 | The filter and switch compute exactly the selection over the `@Inject` constructors. |
| TypeUtils.InjectConstructorCharacterised | tdi-core/src/main/java/es/danpintas/tdi/utils/TypeUtils.java:87-102 | The result is null iff no constructor is `@Inject`. A single one is returned and is the only annotated constructor. Two throw `InjectException`. |
| TypeUtils.GetQualifierAnnotation | tdi-core/src/main/java/es/danpintas/tdi/utils/TypeUtils.java:110-124 | The loop computes exactly the selection over the declared qualifier annotations. |
| TypeUtils.QualifierCharacterised | tdi-core/src/main/java/es/danpintas/tdi/utils/TypeUtils.java:110-124 | The result is null iff no declared annotation is a qualifier, and any other success is a declared qualifier. Exactly one qualifier among the annotations is returned, given that no annotation type repeats `@Qualifier`. Two qualifiers throw. |
| Members.IsOverridden | tdi-core/src/main/java/es/danpintas/tdi/providers/InstanceProvider.java:126-141 | The inner loop answers whether some included method overrides `m`. |
| Members.RemoveOverriddenSub | tdi-core/src/main/java/es/danpintas/tdi/providers/InstanceProvider.java:126-141 | The scan of one class computes exactly `SubScan`. |
| Members.SubScanCharacterised | tdi-core/src/main/java/es/danpintas/tdi/providers/InstanceProvider.java:126-141 | Everything kept is appended to the included list. A kept method is overridden by no method included before it, and a dropped one is overridden by an included method. |
| Members.RemoveOverridden | tdi-core/src/main/java/es/danpintas/tdi/providers/InstanceProvider.java:120-124 | The loop from the most derived class to the root computes exactly `RemoveFrom`. |
| Members.RemoveFromCharacterised | tdi-core/src/main/java/es/danpintas/tdi/providers/InstanceProvider.java:120-124 | A method kept in class `j` is one of its methods that nothing kept in a more derived class overrides. A dropped one is overridden by a kept method of class `j` or below, annotated or not. |
| Members.SurvivorsCharacterised | tdi-core/src/main/java/es/danpintas/tdi/providers/InstanceProvider.java:78-79 | A method survives in class `j` iff that class declares it and no method kept in a more derived class overrides it. |
| Members.RemoveNotInject | tdi-core/src/main/java/es/danpintas/tdi/providers/InstanceProvider.java:143-152 | The loop filters every class's list. |
| Members.NotInjectRemoved | tdi-core/src/main/java/es/danpintas/tdi/providers/InstanceProvider.java:143-152 | After `removeNotInject`, a method is in class `j`'s list iff it was there and carries `@Inject`. |
| Members.InjectionOrderOrdered | tdi-core/src/main/java/es/danpintas/tdi/providers/InstanceProvider.java:72-85 | Injectors are emitted from the root ancestor to `c`, class by class, with a class's fields before its methods; every member comes from the hierarchy. |
| Members.InjectionOrderMembers | tdi-core/src/main/java/es/danpintas/tdi/providers/InstanceProvider.java:72-85 | A member is injected iff it is an `@Inject` field of a class of the hierarchy, or an `@Inject` method that survives override removal. |
| Members.StaticPartition | tdi-core/src/main/java/es/danpintas/tdi/providers/InstanceProvider.java:154-178 | Every injected member goes to exactly one list: the static list iff it is static. |
| Members.ConstructorForCharacterised | tdi-core/src/main/java/es/danpintas/tdi/providers/InstanceProvider.java:108-118 | The chosen constructor is declared by the class. It is the only `@Inject` one or, without any, a no-argument one. Without either, or with two `@Inject` ones, it throws `InjectException`. |
| Members.ConstructorFor | tdi-core/src/main/java/es/danpintas/tdi/providers/InstanceProvider.java:108-118 | The constructor `initConstructor` chooses. Its properties are those of `ConstructorForCharacterised`. |
| Members.PlanOfCharacterised | tdi-core/src/main/java/es/danpintas/tdi/providers/InstanceProvider.java:62-100 | A plan keeps every injected member once, statics apart, each list ordered root first and fields first. Its hooks are the class's unique annotated no-argument methods, and a failure is an `InjectException`. |
| Members.PlanOf | tdi-core/src/main/java/es/danpintas/tdi/providers/InstanceProvider.java:62-100 | The plan the `InstanceProvider` constructor computes: constructor, static and instance member lists, hooks and access flags. `PlanOfCharacterised` states its properties. |
| Members.HookFound | tdi-core/src/main/java/es/danpintas/tdi/utils/TypeUtils.java:61-78 | A found hook is an annotated, argument-free method of the list, and a failed lookup is an `InjectException`. |
| Members.CompareMembersAsWritten | tdi-core/src/main/java/es/danpintas/tdi/AbstractInjector.java:137-154 | As written, `compareMembers` answers 1 for a field against a method and 0 otherwise. It never orders by class and never answers -1. |
| Members.CompareMembers | tdi-core/src/main/java/es/danpintas/tdi/AbstractInjector.java:137-154 | The comparator as written, with `bClass` read from `a`. Its contract is `CompareMembersAsWritten`. |
| Members.CountAscendingRun | tdi-core/src/main/java/es/danpintas/tdi/AbstractInjector.java:131 | The run detection of `List.sort` never takes its descending branch under `compareMembers`. The ascending run it counts is the whole list, and every member compares at or above its predecessor, so the sort leaves the static members as they are. |
| Container.CheckDependency | tdi-core/src/main/java/es/danpintas/tdi/injection/FieldInjector.java:58-73 | Computes the qualifier and then the supply: a thunk for a `Provider` member, otherwise the provider bound to the key, if any. Exactly `SupplyOf`. |
| Container.DependencyCharacterised | tdi-core/src/main/java/es/danpintas/tdi/injection/FieldInjector.java:58-73 | A dependency is deferred iff the raw type is `Provider`. Its qualifier is the member's only qualifier. An eager key uses the resolved type and a deferred key uses `Provider`'s type argument. A deferred supply looks nothing up. |
| Container.DependencyOf | tdi-core/src/main/java/es/danpintas/tdi/injection/FieldInjector.java:58-73 | The dependency of a member: its qualifier, and a deferred `Provider` key or an eager one. `DependencyCharacterised` states its properties. |
| Container.LastQualifierWins | tdi-core/src/main/java/es/danpintas/tdi/bindings/Binding.java:57-69 | The last `annotated` or `named` call sets the key's qualifier, whatever else is called. |
| Container.KeyWithoutQualifierCalls | tdi-core/src/main/java/es/danpintas/tdi/bindings/Binding.java:103-105 | Without qualifier calls the key is unchanged. |
| Container.Apply | tdi-core/src/main/java/es/danpintas/tdi/bindings/Binding.java:57-96 | One configuration call of the binding DSL on the builder's state. `LastQualifierWins`, `KeyWithoutQualifierCalls`, `BoundTypeFixed` and `LastTargetDecides` state its properties. |
| Container.BoundTypeFixed | tdi-core/src/main/java/es/danpintas/tdi/bindings/Binding.java:49-54 | No call changes the bound type. |
| Container.LastTargetDecides | tdi-core/src/main/java/es/danpintas/tdi/bindings/Binding.java:72-114 | After `to(provider)` or `to(instance)` last, `provider()` returns that provider without building. After `scoped` or `to(implementation)` last, it asks the builder; a `scoped` after `to(provider)` asks with no implementation. |
| Container.Binding.constructor | tdi-core/src/main/java/es/danpintas/tdi/bindings/Binding.java:49-54 | A new builder has the bound type as implementation and no qualifier, scope or explicit provider. |
| Container.Binding.Annotate | tdi-core/src/main/java/es/danpintas/tdi/bindings/Binding.java:57-59 | Sets the qualifier to the annotation class's qualifier, nothing else. |
| Container.Binding.Name | tdi-core/src/main/java/es/danpintas/tdi/bindings/Binding.java:62-64 | Sets the qualifier to `@Named(name)`, nothing else. |
| Container.Binding.Scope | tdi-core/src/main/java/es/danpintas/tdi/bindings/Binding.java:72-76 | Sets the scope and clears the explicit provider. |
| Container.Binding.ToImplementation | tdi-core/src/main/java/es/danpintas/tdi/bindings/Binding.java:79-83 | Sets the implementation and clears the explicit provider, keeping the scope. |
| Container.Binding.ToProvider | tdi-core/src/main/java/es/danpintas/tdi/bindings/Binding.java:86-91 | Sets the provider and clears scope and implementation. |
| Container.Binding.ToInstance | tdi-core/src/main/java/es/danpintas/tdi/bindings/Binding.java:94-96 | Installs a `ProviderImpl` of the instance, as `to(provider)` does. |
| Container.Binding.Key | tdi-core/src/main/java/es/danpintas/tdi/bindings/Binding.java:103-105 | The key is (bound type, current qualifier). |
| Container.FieldInjector.constructor | tdi-core/src/main/java/es/danpintas/tdi/injection/FieldInjector.java:36-45 | Access is forced iff the field or its declaring class is not public; no provider is stored. |
| Container.FieldInjector.ProviderCheck | tdi-core/src/main/java/es/danpintas/tdi/injection/FieldInjector.java:58-73 | A stored provider is kept. Otherwise the dependency's supply is stored, or its error is returned. |
| Container.FieldInjector.Inject | tdi-core/src/main/java/es/danpintas/tdi/injection/FieldInjector.java:48-55 | Without a provider nothing happens. Otherwise the only event on the target is the assignment of the provider's value to the field. The value comes from the provider: its immediate value for one that builds nothing, a new instance from a prototype provider, the non-null cached instance from a singleton provider. No filled singleton cache changes. |
| Container.FieldInjector.Equals | tdi-core/src/main/java/es/danpintas/tdi/injection/FieldInjector.java:94-108 | Two field injectors are equal exactly when they inject the same member, whatever their providers or access flags. |
| Container.SlotsCharacterised | tdi-core/src/main/java/es/danpintas/tdi/injection/ExecutableInjector.java:54-75 | The loop succeeds iff every parameter does, slot `k` holding parameter `k`'s provider. Otherwise the slots before the first failing parameter are filled and its error is returned. |
| Container.ExecutableInjector.constructor | tdi-core/src/main/java/es/danpintas/tdi/injection/ExecutableInjector.java:41-49 | Access is forced iff the declaring class or the executable is not public. |
| Container.ExecutableInjector.ProviderCheck | tdi-core/src/main/java/es/danpintas/tdi/injection/ExecutableInjector.java:54-75 | An existing array is kept. Otherwise a fresh array with one slot per parameter is filled by the loop; a failure leaves it partly filled. |
| Container.NewSlots | tdi-core/src/main/java/es/danpintas/tdi/injection/ExecutableInjector.java:54-75 | Allocates one slot per parameter and fills them as `Slots` specifies. |
| Container.FillSlots | tdi-core/src/main/java/es/danpintas/tdi/injection/ExecutableInjector.java:54-75 | The loop stores each parameter's provider in turn into the fresh array and stops at the first that throws. |
| Container.ExecutableInjector.InjectArgs | tdi-core/src/main/java/es/danpintas/tdi/injection/ExecutableInjector.java:77-83 | With no array it fails with `NullPointerException`. Otherwise there is one argument per slot. An empty slot gives null. A slot with a provider gives what that provider hands out: its immediate value, a new instance for a prototype provider, the non-null cached instance for a singleton provider. No filled singleton cache changes. |
| Container.InstanceProvider.InitProviders | tdi-core/src/main/java/es/danpintas/tdi/providers/InstanceProvider.java:218-223 | `providerCheck` runs on the constructor injector and then each instance member injector. The static list then goes to `addStaticMembers` once. On success all are ready and the injector's statics are `AddNew` of the old ones and these. |
| Container.InstanceProvider.constructor | tdi-core/src/main/java/es/danpintas/tdi/providers/InstanceProvider.java:62-100 | The provider holds exactly the type, constructor injector, member lists, hooks and access flags it is given, which `NewInstanceProvider` computes. |
| Container.InstanceProvider.Get | tdi-core/src/main/java/es/danpintas/tdi/providers/InstanceProvider.java:181-192 | A successful build returns a new object. Its events are its construction, then one injection per member injector that has something to inject (a field injector without a provider does nothing), in order, then the post-construct call. A pre-destroy method puts a teardown hook for it at the front. A constructor of an abstract class never builds. No filled singleton cache changes. |
| Container.InstanceProvider.Build | tdi-core/src/main/java/es/danpintas/tdi/providers/InstanceProvider.java:181-192 | A constructor of an abstract class fails with `InstantiationException`, with nothing changed. Otherwise, once the constructor arguments exist, the construction happens. It is followed by one injection per member injector that has something to inject (a field injector without a provider does nothing), in order, then the post-construct call and teardown hook, as in `Get`. No filled singleton cache changes. |
| Container.InjectMembers | tdi-core/src/main/java/es/danpintas/tdi/providers/InstanceProvider.java:194-197 | Running the member injectors in order yields on the target one injection per injector that has something to inject, in order. No filled singleton cache changes. |
| Container.NewInstanceProvider | tdi-core/src/main/java/es/danpintas/tdi/providers/InstanceProvider.java:62-100 | Fails exactly as the type's plan does, with its error. Otherwise a new provider that follows that plan. |
| Container.InitConstructor | tdi-core/src/main/java/es/danpintas/tdi/providers/InstanceProvider.java:108-118 | Returns exactly `ConstructorFor`. |
| Container.ParseTypes | tdi-core/src/main/java/es/danpintas/tdi/providers/InstanceProvider.java:102-106 | The `@Inject` fields and the declared methods of each class of the hierarchy, root first. |
| Container.AddInjectorLists | tdi-core/src/main/java/es/danpintas/tdi/providers/InstanceProvider.java:154-178 | Each member becomes one fresh injector: its static ones in the static list and the others in the instance list, in emission order. |
| Container.AddInjectors | tdi-core/src/main/java/es/danpintas/tdi/providers/InstanceProvider.java:154-178 | One class's fields and then its methods are split the same way. |
| Container.Place | tdi-core/src/main/java/es/danpintas/tdi/providers/InstanceProvider.java:154-178 | One fresh injector for the member, in the list its `static` modifier selects. |
| Container.NewMemberInjector | tdi-core/src/main/java/es/danpintas/tdi/providers/InstanceProvider.java:154-178 | A fresh injector for exactly that member, a field injector carrying that field's dependency. |
| Container.SingletonGet | tdi-core/src/main/java/es/danpintas/tdi/providers/SingletonProvider.java:25-29 | A cached non-null instance is returned with nothing built or changed. Otherwise one is built and cached, and the value returned is always the non-null cached one. No filled cache, its own or another's, changes. |
| Container.SingletonGetAgain | tdi-core/src/main/java/es/danpintas/tdi/providers/SingletonProvider.java:25-29 | Call `get()` on a singleton provider, then any other `get()`, then the first provider's `get()` again. Once the first call succeeds, the second returns the same non-null instance, and that instance is still the cached one. |
| Container.Obtain | tdi-core/src/main/java/es/danpintas/tdi/providers/PrototypeProvider.java:21-23 | A provider that builds nothing returns its immediate value. A prototype provider returns a new instance. A singleton provider returns its non-null cached instance. No filled singleton cache changes. |
| Container.InjectMember | tdi-core/src/main/java/es/danpintas/tdi/injection/MethodInjector.java:36-42 | The only events on the target are the member's injection, when it has something to inject. No filled singleton cache changes. |
| Container.CheckAll | tdi-core/src/main/java/es/danpintas/tdi/providers/InstanceProvider.java:218-223 | `providerCheck` on each injector in order, stopping at the first failure. On success all are ready; whatever was ready stays ready. |
| Container.AddNewCharacterised | tdi-core/src/main/java/es/danpintas/tdi/AbstractInjector.java:156-162 | Adding keeps the old list as a prefix and holds exactly the members of both lists without introducing duplicates. |
| Container.AddNew | tdi-core/src/main/java/es/danpintas/tdi/AbstractInjector.java:156-162 | `addStaticMembers` as a function on member lists, against which the method is proved. `AddNewCharacterised` states its properties. |
| Container.Injector.AddStaticMembers | tdi-core/src/main/java/es/danpintas/tdi/AbstractInjector.java:156-162 | An injector whose member is not yet held is checked and appended, and one already held is neither checked nor added. On success every added injector is ready. |
| Container.Injector.AddStaticMember | tdi-core/src/main/java/es/danpintas/tdi/AbstractInjector.java:158-161 | The same step for one injector. |
| Container.PutScopeLookup | tdi-core/src/main/java/es/danpintas/tdi/AbstractInjector.java:53-55 | After a put the annotation has the new strategy and each other annotation keeps its own. |
| Container.PutScopeEntries | tdi-core/src/main/java/es/danpintas/tdi/AbstractInjector.java:53-55 | A put keeps every other entry, adds only the new one, and never lists an annotation twice. |
| Container.LastScopeWins | tdi-core/src/main/java/es/danpintas/tdi/AbstractInjector.java:53-55 | The last registration of an annotation decides its strategy, and an annotation registered nowhere keeps the one it had. |
| Container.PutScopesDistinct | tdi-core/src/main/java/es/danpintas/tdi/AbstractInjector.java:53-55 | The scope registry never lists an annotation twice. |
| Container.ScopeTable | tdi-core/src/main/java/es/danpintas/tdi/AbstractInjector.java:53-55 | `Singleton` first, then each extra scope put in order. |
| Container.ProvisionOfScope | tdi-core/src/main/java/es/danpintas/tdi/AbstractInjector.java:94-102 | For an implementation carrying no scope annotation, a binding scoped `a` gets the strategy registered for `a`, or prototype when `a` is not a scope. |
| Container.ProvisionCharacterised | tdi-core/src/main/java/es/danpintas/tdi/AbstractInjector.java:94-102 | The strategy is that of the first entry the implementation class or the binding scope selects, or prototype when none does. A missing implementation with a non-empty registry throws `NullPointerException`. |
| Container.ProvisionSucceeds | tdi-core/src/main/java/es/danpintas/tdi/AbstractInjector.java:94-102 | With an implementation a strategy is always found. |
| Container.Provision | tdi-core/src/main/java/es/danpintas/tdi/AbstractInjector.java:94-102 | `getProvision` as a function, against which the registry scan is proved. `ProvisionCharacterised` and `ProvisionSucceeds` state its properties. |
| Container.BaseProvision | tdi-core/src/main/java/es/danpintas/tdi/AbstractInjector.java:94-102 | With only `@Singleton` registered, a binding is a singleton iff its implementation class carries `@Singleton` or it was scoped `Singleton`. |
| Container.FindInstanceProvider | tdi-core/src/main/java/es/danpintas/tdi/AbstractInjector.java:105-109 | The answer is a registered provider for exactly that type. No answer means none is registered. |
| Container.FindExtended | tdi-core/src/main/java/es/danpintas/tdi/AbstractInjector.java:105-116 | Registering further providers never changes an earlier answer. |
| Container.AddNewAllCharacterised | tdi-core/src/main/java/es/danpintas/tdi/AbstractInjector.java:128-129 | Initialising all providers keeps the old statics as a prefix. It holds exactly them and the members of every provider's static list, without duplicates. |
| Container.LastBindingWins | tdi-core/src/main/java/es/danpintas/tdi/AbstractInjector.java:124-126 | After the puts a key is bound iff it was bound before or some builder has it, so `getProvider` answers null exactly for an unbound key. Its provider is that of the last builder with the key. |
| Container.Injector.GetProvider | tdi-core/src/main/java/es/danpintas/tdi/AbstractInjector.java:170-172 | A provider is returned exactly for a bound key, and it is the one bound. An unbound key gives null. |
| Container.InjectorBoundToItself | tdi-core/src/main/java/es/danpintas/tdi/AbstractInjector.java:52-62 | Unless a later module binds `Injector` without a qualifier, `getProvider` of that key answers the injector itself. |
| Container.TeardownIsLifo | tdi-core/src/main/java/es/danpintas/tdi/AbstractInjector.java:164-178 | Of hooks registered in turn the later runs first, and all run before hooks held earlier. |
| Container.Injector.constructor | tdi-core/src/main/java/es/danpintas/tdi/AbstractInjector.java:52-55 | Registers `Singleton`, then the extra scopes in order; everything else starts empty. |
| Container.Injector.GetProvision | tdi-core/src/main/java/es/danpintas/tdi/AbstractInjector.java:94-102 | The scan over the registry computes exactly `Provision`. |
| Container.Injector.GetInstanceProvider | tdi-core/src/main/java/es/danpintas/tdi/AbstractInjector.java:105-116 | A provider registered for the type is returned unchanged. Otherwise one is built, and registered only if the build succeeds. Afterwards the type is registered to the provider returned. |
| Container.Injector.GetOrBuildProvider | tdi-core/src/main/java/es/danpintas/tdi/AbstractInjector.java:78-84 | A pair already memoised returns its provider with nothing changed. Otherwise a provider is built and memoised under the pair. Memoised entries are never dropped, and singleton serials stay distinct. |
| Container.Injector.BuildAndRegisterProvider | tdi-core/src/main/java/es/danpintas/tdi/AbstractInjector.java:86-92 | The pair's strategy is applied to the implementation's instance provider and memoised. A missing implementation throws `NullPointerException`. |
| Container.Injector.BuildProvider | tdi-core/src/main/java/es/danpintas/tdi/AbstractInjector.java:89-90 | `getProvision(...).apply(getInstanceProvider(...))`: the strategy applied to the provider registered for the implementation. |
| Container.Injector.ApplyProvision | tdi-core/src/main/java/es/danpintas/tdi/AbstractInjector.java:89-90 | A singleton wrapper takes the next allocation number, and a prototype consumes none. |
| Container.Injector.ProviderOf | tdi-core/src/main/java/es/danpintas/tdi/bindings/Binding.java:112-114 | An explicit provider is returned with nothing built. Otherwise the one built for the builder's implementation and scope is returned and recorded. |
| Container.Injector.BindingBuild | tdi-core/src/main/java/es/danpintas/tdi/AbstractInjector.java:71-75 | A fresh builder for the type is appended to `builders`. |
| Container.Injector.Install | tdi-core/src/main/java/es/danpintas/tdi/AbstractInjector.java:57-60 | A module leaves one builder per bind statement, configured by that statement's calls, appended in order. |
| Container.Injector.InstallAll | tdi-core/src/main/java/es/danpintas/tdi/AbstractInjector.java:59-60 | The modules are installed in order. |
| Container.Injector.InstallModules | tdi-core/src/main/java/es/danpintas/tdi/AbstractInjector.java:56-60 | After the installs the builders are the base module's, then `first`'s, then each of `rest`'s. |
| Container.Injector.BindAll | tdi-core/src/main/java/es/danpintas/tdi/AbstractInjector.java:124-125 | Each builder's `key()` is put with its `provider()`, in order: the bindings are those the puts give. |
| Container.Injector.BindBuilders | tdi-core/src/main/java/es/danpintas/tdi/AbstractInjector.java:124-126 | All builders are bound in order, then dropped. |
| Container.Injector.InitAll | tdi-core/src/main/java/es/danpintas/tdi/AbstractInjector.java:128-129 | `initProviders()` runs on every registered provider. On success the statics are `AddNewAll` of the old ones and the providers' static lists, and all are ready. |
| Container.Injector.InjectStatic | tdi-core/src/main/java/es/danpintas/tdi/AbstractInjector.java:131-133 | After the sort, every static member is injected with `null`, in order: one injection of static state per member that has something to inject. |
| Container.Injector.SortStaticMembers | tdi-core/src/main/java/es/danpintas/tdi/AbstractInjector.java:131 | The sorted list is the static member list itself, and every member compares at or above its predecessor under `compareMembers`. |
| Container.Injector.InitStatic | tdi-core/src/main/java/es/danpintas/tdi/AbstractInjector.java:128-133 | The providers are initialised, then the statics sorted and injected. |
| Container.Injector.Build | tdi-core/src/main/java/es/danpintas/tdi/AbstractInjector.java:122-135 | On success the builders are gone, the bindings are the puts the builders give, and the statics are every provider's, all ready. The events on static state are one injection per static member injector that has something to inject (a field injector without a provider does nothing), in order. |
| Container.Injector.Destroy | tdi-core/src/main/java/es/danpintas/tdi/AbstractInjector.java:175-178 | The trace grows by the pre-destroy calls of the hooks, front to back. |
| Container.Injector.AddPreDestroy | tdi-core/src/main/java/es/danpintas/tdi/AbstractInjector.java:164-166 | The hook goes to the front of the teardown list. |
| Container.BaseDeclaredFirst | tdi-core/src/main/java/es/danpintas/tdi/AbstractInjector.java:56-57 | The binding of `Injector` to the injector itself is the first declared. |
| Container.NewInjector | tdi-core/src/main/java/es/danpintas/tdi/AbstractInjector.java:52-62 | On success the injector is new, with `Singleton` and the extra scopes registered. Its bindings are those of the base module, `first` and `rest` in order, the later equal key winning. |
| Scenarios.IntBoxFieldIsInteger | tdi-core/src/main/java/es/danpintas/reflect/TypeData.java:182-185 | Seen from `IntBox extends Box<Integer>`, the field `Box.value` of type `E` has type `Integer`. |
| Scenarios.BoxFieldStaysVariable | tdi-core/src/main/java/es/danpintas/reflect/TypeData.java:182-185 | Seen from `Box` itself, the field keeps type `E`, with raw type Object. |
| Scenarios.IntBoxSupertype | tdi-core/src/main/java/es/danpintas/reflect/Types.java:510-543 | From `IntBox`, the view of `Box` is `Box<Integer>`. |
| Scenarios.IntBoxAsBox | tdi-core/src/main/java/es/danpintas/reflect/TypeData.java:170-174 | From `IntBox`, `getSupertype(Box.class)` is the data of `Box<Integer>`. |
| Scenarios.IntBoxVariable | tdi-core/src/main/java/es/danpintas/reflect/Types.java:553-564 | From `IntBox`, the variable `E` of `Box` stands for `Integer`. |

## Left out

- Reflection itself is not modelled. `getDeclared*`, `Field.set`, `Method.invoke`, `Constructor.newInstance` and `Array.newInstance` are lookups in the class table or events in the trace. `setAccessible` becomes the `forcedAccess` flags. `Field.set` performs no type check.
- Container.InstanceProvider.Build: `ConstructorInjector` is not part of this model. `Constructor.newInstance` on an abstract class throws `InstantiationException`, which the model reports as `InstantiationFailed`. How `ConstructorInjector.inject` wraps that exception is not modelled. Exceptions thrown from inside a constructor are not modelled either.
- Only non-null type descriptors are modelled: `Type` has no null value, and only an owner is optional. Reflection never hands the container a null type, so the `null` cases of `canonicalize` and `getRawType` (each returning `null`) do not arise.
- `@Qualifier` not being repeatable is an assumption of the single-qualifier case of `QualifierCharacterised` (`QualifierNotRepeated`), not part of `Valid`.
- `Class.isAnnotationPresent` is read from the class's own annotations. Inheritance of an annotation through `@Inherited` is not modelled.
- Qualifier annotations are values compared by type and member values. Dynamic-proxy qualifier synthesis and reflective annotation equality and hashing (`Qualifiers.from`, `invoke`, `annotationEquals`, `annotationHashCode`) are not modelled. `NamedImpl` is string equality.
- Java object identity is equality of values: the `==` tests of `resolveType` and `AbstractKey.equals`, and the identity hash of `Class`. `ClassHash` stands for any fixed hash of a class. `String.hashCode`, `Arrays.hashCode` and the descriptors' hash folds are modelled in 32-bit arithmetic.
- `HashMap` iteration order is not modelled. The scope registry is a sequence in insertion order. `instanceProviders` is iterated in registration order by `build()`. The binding and provider maps are Dafny maps keyed by value; `BindingKeyEqualsIsIdentity` shows this agrees with `equals` on canonical data.
- `List.sort` (TimSort) is modelled only by its opening run detection (`CountAscendingRun`). Since `compareMembers` never answers -1, the whole list is one run and is left as it is. The static members are therefore injected in registration order.
- Scope strategies other than `PrototypeProvider::new` and `SingletonProvider::new` are not modelled. A subclass's `getScopes()` is the `extraScopes` parameter and can map annotations only to these two.
- `synchronized` on `SingletonProvider.get` and all concurrency are not modelled.
- The JVM shutdown hook registered by `BaseInjector` is not modelled. The `BaseInjector` constructor is `NewInjector` with no extra scopes.
- `toString`, `typeToString`, the error-message templates and `Serializable` details are not modelled.
- Non-termination and the JVM stack are modelled by bounds. A `fuel` bounds the variable substitutions of `resolveType`, whose `while (true)` loop runs forever on a cycle of substitutions. A `depth` bounds nested `get()` calls, where a circular non-lazy graph overflows the stack. Running out of either gives `BoundExhausted`, which stands for the endless loop or the overflow. Nothing is claimed about what Java does past the bound, and no lemma is about that case.
- A provider a module supplies with `to(provider)` is user code. It is modelled as returning a fixed value without side effects.
- Exceptions thrown by user constructors, injected methods and hooks are not modelled. Invocations always succeed, so `MethodInjector`'s wrapping of an invocation failure into `InjectException` does not arise.
- A `null` passed as a provider to `to(provider)` is not modelled.
- The `SingletonProvider` cache lives in the injector, keyed by the provider's allocation number (`Injector.singletons`), rather than in a field of each provider object. The observable behaviour is that of `get()`: fill once, never clear, refill after a `null` build.
- On a failing `build()` the model does not say what happens to `builders`. The Java constructor throws and the injector is unreachable.
- `FieldInjector` resolves its field's dependency, type and qualifier, when it is constructed, by reading the class table. Java computes it in the first `providerCheck`. The outcome, the error and the stored provider are the same, since the table does not change.
- `MethodInjector` and `PrototypeProvider` are modelled inside `InjectMember` and `Obtain` rather than as classes of their own. Their equality is that of their member, as `MemberInjector.Member` gives it.
- `FieldInjector.hashCode` and `MethodInjector.hashCode` are not modelled. Only equality matters to `staticMembers.contains` or to the model anywhere.
- The interfaces and thin types are not modelled: `Injector`'s default overloads, `Binder`, `BindingConfig`, `Module`, `MemberInjector`, `ScopeKey`, `BindingKey`, `ProviderKey`, `InjectException`, `Validations`, and the test suite `TckSuite`. A module is modelled as its sequence of `bind` statements, each with its builder calls.
- Container.NewInjector: the contract states the scopes and the bindings. It does not restate the static-member and trace facts `Injector.Build` proves, so those hold only as `Build`'s contract states them.
- Container.Obtain: for a prototype or singleton provider it states that the value is new or cached. It does not restate the build's events, which `InstanceProvider.Get` and `SingletonGet` state.
- Container.Injector.Build: the contract says every static member is ready after `build()`. It does not say that the instance member injectors of each provider stay ready; `InstanceProvider.InitProviders` states this per provider.
- Container.Injector.constructor, Container.Binding.constructor, Container.FieldInjector.constructor and Container.ExecutableInjector.constructor state the new object's fields only.
