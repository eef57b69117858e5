/**
 * The class table that stands in for Java reflection: for every class its package, kind,
 * superclass, direct interfaces, generic supertypes, type parameters, annotations and
 * declared members.  `IsAssignableFrom` is `Class.isAssignableFrom` over this table.
 */
module Reflect {
  import opened Results

  type ClassName = string

  const ObjectClass: ClassName := "java.lang.Object"
  const CloneableClass: ClassName := "java.lang.Cloneable"
  const SerializableClass: ClassName := "java.io.Serializable"
  const ProviderClass: ClassName := "javax.inject.Provider"
  const InjectAnnotation: ClassName := "javax.inject.Inject"
  const QualifierAnnotation: ClassName := "javax.inject.Qualifier"
  const NamedAnnotation: ClassName := "javax.inject.Named"
  const SingletonAnnotation: ClassName := "javax.inject.Singleton"
  const PostConstructAnnotation: ClassName := "javax.annotation.PostConstruct"
  const PreDestroyAnnotation: ClassName := "javax.annotation.PreDestroy"
  const InjectorClass: ClassName := "es.danpintas.tdi.Injector"

  /** A `java.lang.Class`: a named class, interface or primitive, or an array class. */
  datatype Cls = Named(name: ClassName) | ArrayOf(component: Cls)

  /** What declares a type variable: a class, or a method or constructor of a class. */
  datatype GenericDecl = ClassDecl(cls: ClassName) | ExecutableDecl(owner: ClassName, signature: string)

  /**
   * A `java.lang.reflect.Type`.  `impl` tells the descriptors built by this library
   * (its `CompositeType` implementations) from those built by the JDK or by other code.
   */
  datatype Type =
    | Raw(cls: Cls)
    | Param(owner: Option<Type>, raw: ClassName, args: seq<Type>, impl: bool)
    | GArray(component: Type, impl: bool)
    | Wild(upper: seq<Type>, lower: seq<Type>, impl: bool)
    | TVar(decl: GenericDecl, name: string)

  /** An annotation: its annotation type and its member values. */
  datatype Annotation = Annotation(annotationType: ClassName, values: seq<string>)

  datatype Access = Public | Protected | PackagePrivate | Private

  datatype Mods = Mods(access: Access, isStatic: bool)

  datatype FieldInfo = FieldInfo(
    declaring: ClassName, name: string, mods: Mods, annotations: seq<Annotation>,
    rawType: Cls, genericType: Type)

  datatype ParamInfo = ParamInfo(rawType: Cls, genericType: Type, annotations: seq<Annotation>)

  datatype MethodInfo = MethodInfo(
    declaring: ClassName, name: string, mods: Mods, annotations: seq<Annotation>,
    params: seq<ParamInfo>, returnType: Cls, genericReturnType: Type, genericExceptionTypes: seq<Type>)

  datatype CtorInfo = CtorInfo(
    declaring: ClassName, mods: Mods, annotations: seq<Annotation>,
    params: seq<ParamInfo>, genericExceptionTypes: seq<Type>)

  /**
   * One class of the table.  `rank` is a witness that the super/interface edges are acyclic:
   * every direct supertype has a smaller rank.
   */
  datatype ClassInfo = ClassInfo(
    pkg: string, access: Access, isInterface: bool, isAbstract: bool, isPrimitive: bool,
    enclosing: Option<ClassName>,
    superclass: Option<ClassName>, genericSuperclass: Option<Type>,
    interfaces: seq<ClassName>, genericInterfaces: seq<Type>,
    typeParameters: seq<string>, annotations: seq<Annotation>,
    fields: seq<FieldInfo>, methods: seq<MethodInfo>, ctors: seq<CtorInfo>,
    rank: nat)

  type ClassTable = map<ClassName, ClassInfo>

  /** A name absent from the table stands for a public class extending Object with no members. */
  function DefaultInfo(n: ClassName): ClassInfo {
    var root := n == ObjectClass;
    ClassInfo("", Public, false, false, false, None,
              if root then None else Some(ObjectClass),
              if root then None else Some(Raw(Named(ObjectClass))),
              [], [], [], [], [], [], [], if root then 0 else 1)
  }

  function Info(ct: ClassTable, n: ClassName): ClassInfo {
    if n in ct then ct[n] else DefaultInfo(n)
  }

  function Rank(ct: ClassTable, n: ClassName): nat {
    Info(ct, n).rank
  }

  /** A root interface such as Cloneable: no superclass, no superinterfaces. */
  predicate RootInterface(info: ClassInfo) {
    info.isInterface && !info.isPrimitive && info.superclass.None? && info.genericSuperclass.None?
    && info.interfaces == [] && info.genericInterfaces == [] && info.rank > 0
  }

  /** The shape conditions the JVM guarantees for one class. */
  predicate ClassOk(ct: ClassTable, n: ClassName)
    requires n in ct
  {
    var info := ct[n];
    && |info.genericInterfaces| == |info.interfaces|
    && (info.superclass.Some? <==> info.genericSuperclass.Some?)
    && (info.superclass.None? <==> (n == ObjectClass || info.isInterface || info.isPrimitive))
    && !(info.isInterface && info.isPrimitive)
    && (info.isPrimitive ==> info.interfaces == [])
    && (n != ObjectClass ==> info.rank > 0)
    && (info.superclass.Some? ==>
          var s := info.superclass.value;
          Rank(ct, s) < info.rank && !Info(ct, s).isInterface && !Info(ct, s).isPrimitive)
    && (forall i | 0 <= i < |info.interfaces| ::
          Rank(ct, info.interfaces[i]) < info.rank && Info(ct, info.interfaces[i]).isInterface
          && !Info(ct, info.interfaces[i]).isPrimitive)
  }

  /** Every member a class lists is declared by that class, as `getDeclaringClass` reports. */
  ghost predicate MembersDeclared(ct: ClassTable) {
    forall n | n in ct ::
      && (forall k | 0 <= k < |ct[n].fields| :: ct[n].fields[k].declaring == n)
      && (forall k | 0 <= k < |ct[n].methods| :: ct[n].methods[k].declaring == n)
      && (forall k | 0 <= k < |ct[n].ctors| :: ct[n].ctors[k].declaring == n)
  }

  /** `@Qualifier` is not a repeatable annotation: no class of the table carries it twice. */
  ghost predicate QualifierNotRepeated(ct: ClassTable) {
    forall n, i, j | n in ct && 0 <= i < j < |ct[n].annotations| ::
      !(ct[n].annotations[i].annotationType == QualifierAnnotation && ct[n].annotations[j].annotationType == QualifierAnnotation)
  }

  /** A class table the JVM could produce: the roots are present and the hierarchy is acyclic. */
  ghost predicate Valid(ct: ClassTable) {
    && ObjectClass in ct && ct[ObjectClass].rank == 0
    && !ct[ObjectClass].isInterface && !ct[ObjectClass].isPrimitive
    && ct[ObjectClass].interfaces == []
    && CloneableClass in ct && RootInterface(ct[CloneableClass])
    && SerializableClass in ct && RootInterface(ct[SerializableClass])
    && forall n | n in ct :: ClassOk(ct, n)
  }

  // ---- The Class accessors used by the modelled code.

  function IsInterface(ct: ClassTable, c: Cls): bool {
    c.Named? && Info(ct, c.name).isInterface
  }

  function IsPrimitive(ct: ClassTable, c: Cls): bool {
    c.Named? && Info(ct, c.name).isPrimitive
  }

  function IsPublic(ct: ClassTable, c: Cls): bool {
    match c
    case Named(n) => Info(ct, n).access == Public
    case ArrayOf(e) => IsPublic(ct, e)
  }

  /** `Class.getSuperclass`: arrays extend Object; Object, interfaces and primitives have none. */
  function Superclass(ct: ClassTable, c: Cls): Option<Cls> {
    match c
    case Named(n) => if Info(ct, n).superclass.Some? then Some(Named(Info(ct, n).superclass.value)) else None
    case ArrayOf(_) => Some(Named(ObjectClass))
  }

  function GenericSuperclass(ct: ClassTable, c: Cls): Option<Type> {
    match c
    case Named(n) => Info(ct, n).genericSuperclass
    case ArrayOf(_) => Some(Raw(Named(ObjectClass)))
  }

  function Interfaces(ct: ClassTable, c: Cls): seq<Cls> {
    match c
    case Named(n) => seq(|Info(ct, n).interfaces|, i requires 0 <= i < |Info(ct, n).interfaces| =>
                           Named(Info(ct, n).interfaces[i]))
    case ArrayOf(_) => [Named(CloneableClass), Named(SerializableClass)]
  }

  function GenericInterfaces(ct: ClassTable, c: Cls): seq<Type> {
    match c
    case Named(n) => Info(ct, n).genericInterfaces
    case ArrayOf(_) => [Raw(Named(CloneableClass)), Raw(Named(SerializableClass))]
  }

  function DirectSupers(ct: ClassTable, c: Cls): seq<Cls> {
    (if Superclass(ct, c).Some? then [Superclass(ct, c).value] else []) + Interfaces(ct, c)
  }

  /** A rank for every class, arrays included, that decreases along supertype edges. */
  function ClsRank(ct: ClassTable, c: Cls): nat {
    match c
    case Named(n) => Rank(ct, n)
    case ArrayOf(e) => 1 + Rank(ct, CloneableClass) + Rank(ct, SerializableClass) + ClsRank(ct, e)
  }

  lemma SuperclassRank(ct: ClassTable, c: Cls)
    requires Valid(ct)
    requires Superclass(ct, c).Some?
    ensures ClsRank(ct, Superclass(ct, c).value) < ClsRank(ct, c)
    ensures GenericSuperclass(ct, c).Some?
    ensures !IsInterface(ct, Superclass(ct, c).value) && !IsPrimitive(ct, Superclass(ct, c).value)
  {
    if c.Named? && c.name in ct {
      assert ClassOk(ct, c.name);
    }
  }

  lemma InterfacesRank(ct: ClassTable, c: Cls)
    requires Valid(ct)
    ensures |GenericInterfaces(ct, c)| == |Interfaces(ct, c)|
    ensures forall i | 0 <= i < |Interfaces(ct, c)| ::
              ClsRank(ct, Interfaces(ct, c)[i]) < ClsRank(ct, c) && IsInterface(ct, Interfaces(ct, c)[i])
  {
    if c.Named? && c.name in ct {
      assert ClassOk(ct, c.name);
    }
  }

  lemma DirectSupersRank(ct: ClassTable, c: Cls)
    requires Valid(ct)
    ensures forall s | s in DirectSupers(ct, c) :: ClsRank(ct, s) < ClsRank(ct, c)
  {
    InterfacesRank(ct, c);
    if Superclass(ct, c).Some? {
      SuperclassRank(ct, c);
    }
  }

  /**
   * `a.isAssignableFrom(b)`: `b` is `a`, or `a` is Object and `b` is a reference type, or both
   * are arrays with assignable reference components, or `a` is reachable through `b`'s direct
   * supertypes.  Primitive classes are assignable only from themselves.
   */
  function IsAssignableFrom(ct: ClassTable, a: Cls, b: Cls): bool
    requires Valid(ct)
    decreases ClsRank(ct, b)
  {
    if a == b then true
    else if IsPrimitive(ct, a) || IsPrimitive(ct, b) then false
    else if a == Named(ObjectClass) then true
    else if a.ArrayOf? && b.ArrayOf? then IsAssignableFrom(ct, a.component, b.component)
    else
      DirectSupersRank(ct, b);
      exists s | s in DirectSupers(ct, b) :: IsAssignableFrom(ct, a, s)
  }

  lemma {:induction false} AssignableFromSuper(ct: ClassTable, a: Cls, b: Cls, s: Cls)
    requires Valid(ct)
    requires s in DirectSupers(ct, b)
    requires IsAssignableFrom(ct, a, s)
    ensures IsAssignableFrom(ct, a, b)
    decreases ClsRank(ct, b)
  {
    DirectSupersRank(ct, b);
    if a == b || a == Named(ObjectClass) {
    } else if IsPrimitive(ct, a) {
      PrimitiveOnlyFromItself(ct, a, s);
    } else if a.ArrayOf? && b.ArrayOf? {
      // the supertypes of an array class are Object, Cloneable and Serializable
      assert s in [Named(ObjectClass), Named(CloneableClass), Named(SerializableClass)];
      NamedNotAssignableToArray(ct, a, s);
    }
  }

  /** A primitive class is assignable only from itself. */
  lemma PrimitiveOnlyFromItself(ct: ClassTable, a: Cls, b: Cls)
    requires Valid(ct)
    requires IsPrimitive(ct, a) && IsAssignableFrom(ct, a, b)
    ensures a == b
  {
  }

  /** An array class is never assignable from a named class. */
  lemma {:induction false} NamedNotAssignableToArray(ct: ClassTable, a: Cls, b: Cls)
    requires Valid(ct)
    requires a.ArrayOf? && b.Named?
    ensures !IsAssignableFrom(ct, a, b)
    decreases ClsRank(ct, b)
  {
    DirectSupersRank(ct, b);
    forall s | s in DirectSupers(ct, b)
      ensures !IsAssignableFrom(ct, a, s)
    {
      assert s.Named? by {
        if Superclass(ct, b).Some? && s == Superclass(ct, b).value {
        } else {
          assert s in Interfaces(ct, b);
        }
      }
      NamedNotAssignableToArray(ct, a, s);
    }
  }

  /** `isAssignableFrom` is transitive. */
  lemma {:induction false} AssignableTransitive(ct: ClassTable, a: Cls, b: Cls, c: Cls)
    requires Valid(ct)
    requires IsAssignableFrom(ct, a, b) && IsAssignableFrom(ct, b, c)
    ensures IsAssignableFrom(ct, a, c)
    decreases ClsRank(ct, c)
  {
    DirectSupersRank(ct, c);
    if a == b || b == c || a == c {
    } else if IsPrimitive(ct, b) {
      PrimitiveOnlyFromItself(ct, b, c);
    } else if a == Named(ObjectClass) {
      assert !IsPrimitive(ct, c) by {
        if IsPrimitive(ct, c) {
          assert false;
        }
      }
    } else if b == Named(ObjectClass) {
      // Object is assignable only to Object among the reference types
      ObjectOnlyToObject(ct, a);
    } else if b.ArrayOf? && c.ArrayOf? {
      if a.ArrayOf? {
        AssignableTransitive(ct, a.component, b.component, c.component);
      } else {
        var s :| s in DirectSupers(ct, b) && IsAssignableFrom(ct, a, s);
        assert s in DirectSupers(ct, c);
        AssignableFromSuper(ct, a, c, s);
      }
    } else {
      var s :| s in DirectSupers(ct, c) && IsAssignableFrom(ct, b, s);
      AssignableTransitive(ct, a, b, s);
      AssignableFromSuper(ct, a, c, s);
    }
  }

  /** Only Object is assignable from Object. */
  lemma ObjectOnlyToObject(ct: ClassTable, a: Cls)
    requires Valid(ct)
    requires IsAssignableFrom(ct, a, Named(ObjectClass))
    ensures a == Named(ObjectClass)
  {
    assert ClassOk(ct, ObjectClass);
    assert DirectSupers(ct, Named(ObjectClass)) == [];
  }
}
