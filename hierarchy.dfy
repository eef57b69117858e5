/**
 * The class-hierarchy half of `Types`: the generic view of a supertype, the lookup of a
 * class's type variable in such a view, the superclass chain, declared methods and the
 * override relation between two methods.
 */
module Hierarchy {
  import opened Results
  import opened Reflect
  import opened Types

  // ---- Generic supertypes

  /**
   * `getGenericSupertype(type, rawType, toResolve)`: on an exact match the type itself;
   * otherwise, for an interface target, the first direct interface that is or extends it;
   * otherwise, for a class `rawType`, the first superclass that is or extends it; and if
   * none is found, the erased target.
   */
  function GenericSupertype(ct: ClassTable, t: Type, raw: Cls, target: Cls): (r: Result<Type>)
    requires Valid(ct)
    decreases ClsRank(ct, raw), 2, 0
  {
    if target == raw then Success(t)
    else
      var viaInterfaces :- if IsInterface(ct, target) then InterfaceSupertype(ct, raw, target, 0) else Success(None);
      var found :- if viaInterfaces.None? && !IsInterface(ct, raw) then HierarchySupertype(ct, raw, target)
                   else Success(viaInterfaces);
      Success(if found.Some? then found.value else Raw(target))
  }

  /** `getInterfaceGenericSupertype` from the `i`-th direct interface on. */
  function InterfaceSupertype(ct: ClassTable, raw: Cls, target: Cls, i: nat): (r: Result<Option<Type>>)
    requires Valid(ct)
    requires i <= |Interfaces(ct, raw)|
    decreases ClsRank(ct, raw), 1, |Interfaces(ct, raw)| - i
  {
    InterfacesRank(ct, raw);
    var interfaces := Interfaces(ct, raw);
    if i == |interfaces| then Success(None)
    else if interfaces[i] == target then Success(Some(GenericInterfaces(ct, raw)[i]))
    else if IsAssignableFrom(ct, target, interfaces[i]) then
      var v :- GenericSupertype(ct, GenericInterfaces(ct, raw)[i], interfaces[i], target);
      Success(Some(v))
    else InterfaceSupertype(ct, raw, target, i + 1)
  }

  /**
   * `getHierarchyGenericSupertype` from `current` up: the walk stops at Object, and a class
   * without a superclass (a primitive) makes `isAssignableFrom(null)` throw.
   */
  function HierarchySupertype(ct: ClassTable, current: Cls, target: Cls): (r: Result<Option<Type>>)
    requires Valid(ct)
    decreases ClsRank(ct, current), 1, 0
  {
    if current == Named(ObjectClass) then Success(None)
    else match Superclass(ct, current)
      case None => Failure(NullPointer)
      case Some(sup) =>
        SuperclassRank(ct, current);
        var generic := GenericSuperclass(ct, current).value;
        if sup == target then Success(Some(generic))
        else if IsAssignableFrom(ct, target, sup) then
          var v :- GenericSupertype(ct, generic, sup, target);
          Success(Some(v))
        else HierarchySupertype(ct, sup, target)
  }

  /** The indexed loop of `getInterfaceGenericSupertype`, with its early returns. */
  method InterfaceGenericSupertype(ct: ClassTable, raw: Cls, target: Cls) returns (r: Result<Option<Type>>)
    requires Valid(ct)
    ensures r == InterfaceSupertype(ct, raw, target, 0)
  {
    InterfacesRank(ct, raw);
    var interfaces := Interfaces(ct, raw);
    var generics := GenericInterfaces(ct, raw);
    var i := 0;
    while i < |interfaces|
      invariant 0 <= i <= |interfaces|
      invariant InterfaceSupertype(ct, raw, target, 0) == InterfaceSupertype(ct, raw, target, i)
    {
      if interfaces[i] == target {
        return Success(Some(generics[i]));
      } else if IsAssignableFrom(ct, target, interfaces[i]) {
        var v := GenericSupertype(ct, generics[i], interfaces[i], target);
        if v.Failure? {
          return v.PropagateFailure();
        }
        return Success(Some(v.value));
      }
      i := i + 1;
    }
    return Success(None);
  }

  /** The while loop of `getHierarchyGenericSupertype`, reassigning the class it stands on. */
  method HierarchyGenericSupertype(ct: ClassTable, rType: Cls, target: Cls) returns (r: Result<Option<Type>>)
    requires Valid(ct)
    ensures r == HierarchySupertype(ct, rType, target)
  {
    var rawType := rType;
    while rawType != Named(ObjectClass)
      invariant HierarchySupertype(ct, rType, target) == HierarchySupertype(ct, rawType, target)
      decreases ClsRank(ct, rawType)
    {
      var rawSupertype := Superclass(ct, rawType);
      if rawSupertype.None? {
        return Failure(NullPointer);
      }
      SuperclassRank(ct, rawType);
      var generic := GenericSuperclass(ct, rawType).value;
      if rawSupertype.value == target {
        return Success(Some(generic));
      } else if IsAssignableFrom(ct, target, rawSupertype.value) {
        var v := GenericSupertype(ct, generic, rawSupertype.value, target);
        if v.Failure? {
          return v.PropagateFailure();
        }
        return Success(Some(v.value));
      }
      rawType := rawSupertype.value;
    }
    return Success(None);
  }

  /**
   * The generic supertype descriptors of the table name the classes they stand for:
   * the raw type of every generic superclass and generic interface is that superclass or
   * interface (the JVM guarantees this of the descriptors it returns).
   */
  ghost predicate GenericsAgree(ct: ClassTable) {
    forall n | n in ct ::
      && (ct[n].superclass.Some? && ct[n].genericSuperclass.Some? ==>
            GetRawType(ct[n].genericSuperclass.value) == Success(Named(ct[n].superclass.value)))
      && (forall i | 0 <= i < |ct[n].interfaces| && i < |ct[n].genericInterfaces| ::
            GetRawType(ct[n].genericInterfaces[i]) == Success(Named(ct[n].interfaces[i])))
  }

  lemma GenericSuperclassAgrees(ct: ClassTable, c: Cls)
    requires Valid(ct) && GenericsAgree(ct)
    requires Superclass(ct, c).Some?
    ensures GenericSuperclass(ct, c).Some?
    ensures GetRawType(GenericSuperclass(ct, c).value) == Success(Superclass(ct, c).value)
  {
    SuperclassRank(ct, c);
  }

  lemma GenericInterfacesAgree(ct: ClassTable, c: Cls, i: nat)
    requires Valid(ct) && GenericsAgree(ct)
    requires i < |Interfaces(ct, c)|
    ensures i < |GenericInterfaces(ct, c)|
    ensures GetRawType(GenericInterfaces(ct, c)[i]) == Success(Interfaces(ct, c)[i])
  {
    InterfacesRank(ct, c);
  }

  /** A reference class other than Object and the interfaces has a superclass. */
  lemma ClassHasSuperclass(ct: ClassTable, c: Cls)
    requires Valid(ct)
    requires c != Named(ObjectClass) && !IsInterface(ct, c) && !IsPrimitive(ct, c)
    ensures Superclass(ct, c).Some?
  {
    if c.Named? && c.name in ct {
      assert ClassOk(ct, c.name);
    }
  }

  /**
   * The view found is always a view of the target: whatever `getGenericSupertype` returns
   * has `target` as its raw type, provided `type` has `raw` as its own.
   */
  lemma {:induction false} GenericSupertypeIsOfTarget(ct: ClassTable, t: Type, raw: Cls, target: Cls)
    requires Valid(ct) && GenericsAgree(ct)
    requires GetRawType(t) == Success(raw)
    requires GenericSupertype(ct, t, raw, target).Success?
    ensures GetRawType(GenericSupertype(ct, t, raw, target).value) == Success(target)
    decreases ClsRank(ct, raw), 2, 0
  {
    if target != raw {
      if IsInterface(ct, target) {
        InterfaceSupertypeIsOfTarget(ct, raw, target, 0);
      }
      var viaInterfaces := if IsInterface(ct, target) then InterfaceSupertype(ct, raw, target, 0) else Success(None);
      if viaInterfaces.Success? && viaInterfaces.value.None? && !IsInterface(ct, raw) {
        HierarchySupertypeIsOfTarget(ct, raw, target);
      }
    }
  }

  lemma {:induction false} InterfaceSupertypeIsOfTarget(ct: ClassTable, raw: Cls, target: Cls, i: nat)
    requires Valid(ct) && GenericsAgree(ct)
    requires i <= |Interfaces(ct, raw)|
    ensures var r := InterfaceSupertype(ct, raw, target, i);
            r.Success? && r.value.Some? ==> GetRawType(r.value.value) == Success(target)
    decreases ClsRank(ct, raw), 1, |Interfaces(ct, raw)| - i
  {
    InterfacesRank(ct, raw);
    var interfaces := Interfaces(ct, raw);
    if i < |interfaces| {
      GenericInterfacesAgree(ct, raw, i);
      if interfaces[i] == target {
      } else if IsAssignableFrom(ct, target, interfaces[i]) {
        var v := GenericSupertype(ct, GenericInterfaces(ct, raw)[i], interfaces[i], target);
        if v.Success? {
          GenericSupertypeIsOfTarget(ct, GenericInterfaces(ct, raw)[i], interfaces[i], target);
        }
      } else {
        InterfaceSupertypeIsOfTarget(ct, raw, target, i + 1);
      }
    }
  }

  lemma {:induction false} HierarchySupertypeIsOfTarget(ct: ClassTable, current: Cls, target: Cls)
    requires Valid(ct) && GenericsAgree(ct)
    ensures var r := HierarchySupertype(ct, current, target);
            r.Success? && r.value.Some? ==> GetRawType(r.value.value) == Success(target)
    decreases ClsRank(ct, current), 1, 0
  {
    if current != Named(ObjectClass) && Superclass(ct, current).Some? {
      var sup := Superclass(ct, current).value;
      SuperclassRank(ct, current);
      GenericSuperclassAgrees(ct, current);
      var generic := GenericSuperclass(ct, current).value;
      if sup == target {
      } else if IsAssignableFrom(ct, target, sup) {
        if GenericSupertype(ct, generic, sup, target).Success? {
          GenericSupertypeIsOfTarget(ct, generic, sup, target);
        }
      } else {
        HierarchySupertypeIsOfTarget(ct, sup, target);
      }
    }
  }

  /**
   * The lookup fails exactly when it has to walk up from a primitive class: every other
   * class reaches Object without meeting a missing superclass.
   */
  lemma {:induction false} GenericSupertypeFails(ct: ClassTable, t: Type, raw: Cls, target: Cls)
    requires Valid(ct)
    ensures GenericSupertype(ct, t, raw, target).Failure? <==> (IsPrimitive(ct, raw) && target != raw)
    ensures GenericSupertype(ct, t, raw, target).Failure? ==>
              GenericSupertype(ct, t, raw, target).error == NullPointer
    decreases ClsRank(ct, raw), 2, 0
  {
    if target != raw {
      if IsInterface(ct, target) {
        InterfaceSupertypeSucceeds(ct, raw, target, 0);
      }
      var viaInterfaces := if IsInterface(ct, target) then InterfaceSupertype(ct, raw, target, 0) else Success(None);
      if viaInterfaces.value.None? && !IsInterface(ct, raw) {
        HierarchySupertypeFails(ct, raw, target);
      }
      if IsPrimitive(ct, raw) {
        PrimitiveHasNoSupertypes(ct, raw);
      }
    }
  }

  lemma PrimitiveHasNoSupertypes(ct: ClassTable, c: Cls)
    requires Valid(ct) && IsPrimitive(ct, c)
    ensures Interfaces(ct, c) == [] && Superclass(ct, c).None? && !IsInterface(ct, c)
    ensures c != Named(ObjectClass)
  {
    assert c.Named? && c.name in ct;
    assert ClassOk(ct, c.name);
  }

  lemma {:induction false} InterfaceSupertypeSucceeds(ct: ClassTable, raw: Cls, target: Cls, i: nat)
    requires Valid(ct)
    requires i <= |Interfaces(ct, raw)|
    ensures InterfaceSupertype(ct, raw, target, i).Success?
    decreases ClsRank(ct, raw), 1, |Interfaces(ct, raw)| - i
  {
    InterfacesRank(ct, raw);
    var interfaces := Interfaces(ct, raw);
    if i < |interfaces| && interfaces[i] != target {
      if IsAssignableFrom(ct, target, interfaces[i]) {
        // a super-interface is never primitive, so the nested lookup succeeds
        assert !IsPrimitive(ct, interfaces[i]) by {
          if interfaces[i].Named? && interfaces[i].name in ct {
            assert ClassOk(ct, interfaces[i].name);
          }
        }
        GenericSupertypeFails(ct, GenericInterfaces(ct, raw)[i], interfaces[i], target);
      } else {
        InterfaceSupertypeSucceeds(ct, raw, target, i + 1);
      }
    }
  }

  lemma {:induction false} HierarchySupertypeFails(ct: ClassTable, current: Cls, target: Cls)
    requires Valid(ct)
    requires !IsInterface(ct, current)
    ensures HierarchySupertype(ct, current, target).Failure? <==> IsPrimitive(ct, current)
    ensures HierarchySupertype(ct, current, target).Failure? ==>
              HierarchySupertype(ct, current, target).error == NullPointer
    decreases ClsRank(ct, current), 1, 0
  {
    if IsPrimitive(ct, current) {
      PrimitiveHasNoSupertypes(ct, current);
    } else if current != Named(ObjectClass) {
      ClassHasSuperclass(ct, current);
      SuperclassRank(ct, current);
      var sup := Superclass(ct, current).value;
      if sup != target {
        if IsAssignableFrom(ct, target, sup) {
          GenericSupertypeFails(ct, GenericSuperclass(ct, current).value, sup, target);
        } else {
          HierarchySupertypeFails(ct, sup, target);
        }
      }
    }
  }

  /**
   * A class that is not a supertype of a reference class `raw` is returned erased: no
   * interface or superclass of `raw` can lead to it.
   */
  lemma {:induction false} GenericSupertypeOfUnrelated(ct: ClassTable, t: Type, raw: Cls, target: Cls)
    requires Valid(ct)
    requires !IsPrimitive(ct, raw) && !IsAssignableFrom(ct, target, raw)
    ensures GenericSupertype(ct, t, raw, target) == Success(Raw(target))
  {
    if IsInterface(ct, target) {
      InterfaceSupertypeOfUnrelated(ct, raw, target, 0);
    }
    if !IsInterface(ct, raw) {
      HierarchySupertypeOfUnrelated(ct, raw, target);
    }
  }

  lemma {:induction false} InterfaceSupertypeOfUnrelated(ct: ClassTable, raw: Cls, target: Cls, i: nat)
    requires Valid(ct)
    requires i <= |Interfaces(ct, raw)|
    requires !IsAssignableFrom(ct, target, raw)
    ensures InterfaceSupertype(ct, raw, target, i) == Success(None)
    decreases |Interfaces(ct, raw)| - i
  {
    var interfaces := Interfaces(ct, raw);
    if i < |interfaces| {
      assert interfaces[i] in DirectSupers(ct, raw);
      if IsAssignableFrom(ct, target, interfaces[i]) {
        AssignableFromSuper(ct, target, raw, interfaces[i]);
      }
      InterfaceSupertypeOfUnrelated(ct, raw, target, i + 1);
    }
  }

  lemma {:induction false} HierarchySupertypeOfUnrelated(ct: ClassTable, current: Cls, target: Cls)
    requires Valid(ct)
    requires !IsPrimitive(ct, current) && !IsInterface(ct, current)
    requires !IsAssignableFrom(ct, target, current)
    ensures HierarchySupertype(ct, current, target) == Success(None)
    decreases ClsRank(ct, current)
  {
    if current != Named(ObjectClass) {
      ClassHasSuperclass(ct, current);
      SuperclassRank(ct, current);
      var sup := Superclass(ct, current).value;
      assert sup in DirectSupers(ct, current);
      if IsAssignableFrom(ct, target, sup) {
        AssignableFromSuper(ct, target, current, sup);
      }
      HierarchySupertypeOfUnrelated(ct, sup, target);
    }
  }

  // ---- Type variables

  /** `declaringClassOf`: the class that declares a variable, if a class does. */
  function DeclaringClassOf(v: Type): (r: Option<ClassName>)
    requires v.TVar?
    ensures r.Some? <==> v.decl.ClassDecl?
    ensures r.Some? ==> r.value == v.decl.cls
  {
    match v.decl
    case ClassDecl(c) => Some(c)
    case ExecutableDecl(_, _) => None
  }

  /** The first position of `x` in `xs`; `NoSuchElementException` when it is absent. */
  function FirstIndex(xs: seq<string>, x: string): (r: Result<nat>)
    ensures r.Success? <==> x in xs
    ensures r.Success? ==> r.value < |xs| && xs[r.value] == x && x !in xs[..r.value]
    ensures r.Failure? ==> r.error == NoSuchElement
  {
    if |xs| == 0 then Failure(NoSuchElement)
    else if xs[0] == x then Success(0)
    else
      var k :- FirstIndex(xs[1..], x);
      assert xs[..k + 1] == [xs[0]] + xs[1..][..k];
      Success(k + 1)
  }

  /**
   * `indexOf` over a class's type parameters: two variables of one class are equal when
   * their names are.
   */
  method IndexOf(names: seq<string>, toFind: string) returns (r: Result<nat>)
    ensures r == FirstIndex(names, toFind)
  {
    var i := 0;
    while i < |names|
      invariant 0 <= i <= |names|
      invariant toFind !in names[..i]
    {
      if toFind == names[i] {
        return Success(i);
      }
      assert names[..i + 1] == names[..i] + [names[i]];
      i := i + 1;
    }
    assert names[..i] == names;
    return Failure(NoSuchElement);
  }

  /**
   * `resolveTypeVariable`: a variable of a method or constructor stays as it is; one of a
   * class is looked up in the view of that class from `(t, raw)`, and replaced by the
   * argument at its position when that view is parameterized.
   */
  function ResolveTypeVariable(ct: ClassTable, t: Type, raw: Cls, unknown: Type): (r: Result<Type>)
    requires Valid(ct)
    requires unknown.TVar?
  {
    match DeclaringClassOf(unknown)
    case None => Success(unknown)
    case Some(declaredByRaw) =>
      var declaredBy :- GenericSupertype(ct, t, raw, Named(declaredByRaw));
      if declaredBy.Param? then
        var index :- FirstIndex(Info(ct, declaredByRaw).typeParameters, unknown.name);
        if index < |declaredBy.args| then Success(declaredBy.args[index])
        else Failure(IndexOutOfBounds)
      else Success(unknown)
  }

  /** A variable of a method or constructor is never substituted. */
  lemma ResolveExecutableVariable(ct: ClassTable, t: Type, raw: Cls, unknown: Type)
    requires Valid(ct)
    requires unknown.TVar? && unknown.decl.ExecutableDecl?
    ensures ResolveTypeVariable(ct, t, raw, unknown) == Success(unknown)
  {
  }

  /**
   * A variable of a class that is not a supertype of the reference class `raw` is left as
   * it is: the view of its class is then the erased class, which is not parameterized.
   */
  lemma ResolveUnrelatedVariable(ct: ClassTable, t: Type, raw: Cls, unknown: Type)
    requires Valid(ct)
    requires unknown.TVar? && unknown.decl.ClassDecl?
    requires !IsPrimitive(ct, raw) && !IsAssignableFrom(ct, Named(unknown.decl.cls), raw)
    ensures ResolveTypeVariable(ct, t, raw, unknown) == Success(unknown)
  {
    GenericSupertypeOfUnrelated(ct, t, raw, Named(unknown.decl.cls));
  }

  /**
   * A variable of a class whose view from `(t, raw)` is not parameterized is left as it is,
   * whether or not that class is a supertype of `raw`: the class is then seen raw, as `Box`
   * is from `Box` itself.
   */
  lemma ResolveUnviewedVariable(ct: ClassTable, t: Type, raw: Cls, unknown: Type)
    requires Valid(ct)
    requires unknown.TVar? && unknown.decl.ClassDecl?
    requires var view := GenericSupertype(ct, t, raw, Named(unknown.decl.cls));
             view.Success? && !view.value.Param?
    ensures ResolveTypeVariable(ct, t, raw, unknown) == Success(unknown)
  {
  }

  /**
   * A variable of a class is replaced by the argument at its position among that class's
   * type parameters, when the view of the class from `(t, raw)` is parameterized.
   */
  lemma ResolveViewedVariable(ct: ClassTable, t: Type, raw: Cls, unknown: Type, k: nat)
    requires Valid(ct)
    requires unknown.TVar? && unknown.decl.ClassDecl?
    requires var view := GenericSupertype(ct, t, raw, Named(unknown.decl.cls));
             view.Success? && view.value.Param? && k < |view.value.args|
    requires var names := Info(ct, unknown.decl.cls).typeParameters;
             k < |names| && names[k] == unknown.name && unknown.name !in names[..k]
    ensures ResolveTypeVariable(ct, t, raw, unknown)
            == Success(GenericSupertype(ct, t, raw, Named(unknown.decl.cls)).value.args[k])
  {
  }

  // ---- The superclass chain

  /**
   * `getTypeHierarchy`: the superclass chain of `c`, root first and `c` last, without
   * Object unless `c` is Object.
   */
  function TypeHierarchy(ct: ClassTable, c: Cls): (r: seq<Cls>)
    requires Valid(ct)
    decreases ClsRank(ct, c)
  {
    match Superclass(ct, c)
    case Some(s) =>
      SuperclassRank(ct, c);
      if s == Named(ObjectClass) then [c] else TypeHierarchy(ct, s) + [c]
    case None => [c]
  }

  /** What the hierarchy still has to gain above `member`: nothing at the end of the chain. */
  function Above(ct: ClassTable, member: Option<Cls>): seq<Cls>
    requires Valid(ct)
  {
    if member.Some? && member.value != Named(ObjectClass) then TypeHierarchy(ct, member.value) else []
  }

  /** The do-while of `getTypeHierarchy`, inserting each class at the front. */
  method GetTypeHierarchy(ct: ClassTable, c: Cls) returns (hierarchy: seq<Cls>)
    requires Valid(ct)
    ensures hierarchy == TypeHierarchy(ct, c)
  {
    hierarchy := [c];
    var member := Superclass(ct, c);
    while member.Some? && member.value != Named(ObjectClass)
      invariant TypeHierarchy(ct, c) == Above(ct, member) + hierarchy
      decreases if member.Some? then 1 + ClsRank(ct, member.value) else 0
    {
      if Superclass(ct, member.value).Some? {
        SuperclassRank(ct, member.value);
      }
      hierarchy := [member.value] + hierarchy;
      member := Superclass(ct, member.value);
    }
  }

  /**
   * The hierarchy climbs by superclass edges: it ends with `c`, each class is the superclass
   * of the next, the first's superclass is Object or missing, every class in it is a
   * supertype of `c`, and Object appears in it only as `c` itself.
   */
  lemma {:induction false} TypeHierarchyChain(ct: ClassTable, c: Cls)
    requires Valid(ct)
    ensures var h := TypeHierarchy(ct, c);
            && |h| > 0 && h[|h| - 1] == c
            && (forall i | 0 <= i < |h| - 1 :: Superclass(ct, h[i + 1]) == Some(h[i]))
            && (Superclass(ct, h[0]).None? || Superclass(ct, h[0]) == Some(Named(ObjectClass)))
            && (forall i | 0 <= i < |h| :: IsAssignableFrom(ct, h[i], c))
            && (Named(ObjectClass) in h <==> c == Named(ObjectClass))
    decreases ClsRank(ct, c)
  {
    var h := TypeHierarchy(ct, c);
    if Superclass(ct, c).Some? && Superclass(ct, c).value != Named(ObjectClass) {
      var s := Superclass(ct, c).value;
      SuperclassRank(ct, c);
      TypeHierarchyChain(ct, s);
      var hs := TypeHierarchy(ct, s);
      assert h == hs + [c];
      assert s in DirectSupers(ct, c);
      forall i | 0 <= i < |h|
        ensures IsAssignableFrom(ct, h[i], c)
      {
        if i < |hs| {
          assert h[i] == hs[i];
          AssignableFromSuper(ct, hs[i], c, s) by {
            assert IsAssignableFrom(ct, hs[i], s);
          }
        }
      }
      assert c != Named(ObjectClass) by {
        assert ClassOk(ct, ObjectClass);
      }
    } else {
      assert h == [c];
    }
  }

  /** Ranks grow strictly along the hierarchy, so no class occurs in it twice. */
  lemma TypeHierarchyRanks(ct: ClassTable, c: Cls, i: nat, j: nat)
    requires Valid(ct)
    requires i < j < |TypeHierarchy(ct, c)|
    ensures ClsRank(ct, TypeHierarchy(ct, c)[i]) < ClsRank(ct, TypeHierarchy(ct, c)[j])
    decreases j - i
  {
    var h := TypeHierarchy(ct, c);
    TypeHierarchyChain(ct, c);
    assert Superclass(ct, h[j]) == Some(h[j - 1]);
    SuperclassRank(ct, h[j]);
    if i < j - 1 {
      TypeHierarchyRanks(ct, c, i, j - 1);
    }
  }

  // ---- Declared methods

  /** `getDeclaredMethods`: the methods a class declares itself; an array class declares none. */
  function DeclaredMethods(ct: ClassTable, c: Cls): seq<MethodInfo> {
    match c
    case Named(n) => Info(ct, n).methods
    case ArrayOf(_) => []
  }

  /** `getMethods`: a fresh list holding the declared methods in their order. */
  method GetMethods(ct: ClassTable, c: Cls) returns (methods: seq<MethodInfo>)
    ensures methods == DeclaredMethods(ct, c)
  {
    var declared := DeclaredMethods(ct, c);
    methods := [];
    for k := 0 to |declared|
      invariant methods == declared[..k]
    {
      methods := methods + [declared[k]];
    }
    assert declared[..|declared|] == declared;
  }

  // ---- Overrides

  function ParameterTypes(m: MethodInfo): (r: seq<Cls>)
    ensures |r| == |m.params| && forall i | 0 <= i < |r| :: r[i] == m.params[i].rawType
  {
    seq(|m.params|, i requires 0 <= i < |m.params| => m.params[i].rawType)
  }

  /** `isSamePackage`: the declaring classes' packages are the same. */
  predicate SamePackage(ct: ClassTable, m: MethodInfo, sub: MethodInfo) {
    Info(ct, m.declaring).pkg == Info(ct, sub.declaring).pkg
  }

  /**
   * `areValidOverrideModifiers`: public needs public, protected needs public or protected,
   * private is never overridden, and package access needs the same package.
   */
  predicate AreValidOverrideModifiers(ct: ClassTable, m: MethodInfo, sub: MethodInfo) {
    var samePackage := SamePackage(ct, m, sub);
    match m.mods.access
    case Public => sub.mods.access == Public
    case Protected => sub.mods.access == Public || sub.mods.access == Protected
    case Private => false
    case PackagePrivate => if sub.mods.access == Private && !samePackage then false else samePackage
  }

  /**
   * `isOverride(method, sub)`: same name, a return type assignable to `method`'s, the same
   * parameter classes and compatible modifiers.
   */
  predicate IsOverride(ct: ClassTable, m: MethodInfo, sub: MethodInfo)
    requires Valid(ct)
  {
    && sub.name == m.name
    && IsAssignableFrom(ct, m.returnType, sub.returnType)
    && ParameterTypes(m) == ParameterTypes(sub)
    && AreValidOverrideModifiers(ct, m, sub)
  }

  /** A method overrides itself exactly when it is not private. */
  lemma OverrideReflexive(ct: ClassTable, m: MethodInfo)
    requires Valid(ct)
    ensures IsOverride(ct, m, m) <==> m.mods.access != Private
  {
  }

  /**
   * An override never narrows public or protected access, and a package-private method is
   * overridden exactly from its own package: the extra test on a private `sub` changes
   * nothing.
   */
  lemma OverrideAccess(ct: ClassTable, m: MethodInfo, sub: MethodInfo)
    requires Valid(ct)
    ensures IsOverride(ct, m, sub) ==> m.mods.access != Private
    ensures IsOverride(ct, m, sub) && m.mods.access == Public ==> sub.mods.access == Public
    ensures IsOverride(ct, m, sub) && m.mods.access == Protected ==> sub.mods.access in {Public, Protected}
    ensures m.mods.access == PackagePrivate ==> (AreValidOverrideModifiers(ct, m, sub) <==> SamePackage(ct, m, sub))
  {
  }

  /**
   * Between methods of one package the override relation is transitive (across packages it
   * is not: a public override of a package-private method does not carry it further).
   */
  lemma OverrideTransitiveInPackage(ct: ClassTable, a: MethodInfo, b: MethodInfo, c: MethodInfo)
    requires Valid(ct)
    requires IsOverride(ct, a, b) && IsOverride(ct, b, c)
    requires SamePackage(ct, a, c)
    ensures IsOverride(ct, a, c)
  {
    AssignableTransitive(ct, a.returnType, b.returnType, c.returnType);
  }
}
