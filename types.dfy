/**
 * The type-descriptor algebra of `es.danpintas.reflect.Types`: the three descriptor
 * implementations and their validation, canonicalisation, raw-type extraction,
 * structural equality and the implementations' hash codes.
 */
module Types {
  import opened Results
  import opened Reflect

  // ---- Measures

  function ClsSize(c: Cls): nat {
    match c
    case Named(_) => 1
    case ArrayOf(e) => 2 + ClsSize(e)
  }

  function Size(t: Type): nat {
    match t
    case Raw(c) => ClsSize(c)
    case Param(o, _, args, _) => 1 + (if o.Some? then Size(o.value) else 0) + SumSizes(args)
    case GArray(c, _) => 1 + Size(c)
    case Wild(u, l, _) => 1 + SumSizes(u) + SumSizes(l)
    case TVar(_, _) => 1
  }

  function OptSize(o: Option<Type>): nat {
    if o.Some? then Size(o.value) else 0
  }

  function SumSizes(ts: seq<Type>): nat {
    if |ts| == 0 then 0 else Size(ts[0]) + SumSizes(ts[1..])
  }

  lemma SingletonSizes(x: Type)
    ensures SumSizes([x]) == Size(x)
    ensures EraseSeq([x]) == [Erase(x)]
    ensures AnyHasVariables([x]) == HasVariables(x)
  {
    assert [x][1..] == [];
  }

  const ObjectType: Type := Raw(Named(ObjectClass))

  predicate IsPrimitiveType(ct: ClassTable, t: Type) {
    t.Raw? && IsPrimitive(ct, t.cls)
  }

  // ---- Validation done by the descriptor constructors

  function CheckNotPrimitive(ct: ClassTable, t: Type): (r: Result<()>)
    ensures r.Success? <==> !IsPrimitiveType(ct, t)
    ensures r.Failure? ==> r.error == PrimitiveNotAllowed
  {
    Need(!IsPrimitiveType(ct, t), PrimitiveNotAllowed)
  }

  /** An owner type must be given exactly when the raw class is nested in another class. */
  function EnsureOwnerType(ct: ClassTable, owner: Option<Type>, raw: ClassName): (r: Result<()>)
    ensures r.Success? <==> (owner.Some? <==> Info(ct, raw).enclosing.Some?)
    ensures owner.None? && Info(ct, raw).enclosing.Some? ==> r == Failure(NoOwnerForEnclosed)
    ensures owner.Some? && Info(ct, raw).enclosing.None? ==> r == Failure(OwnerForUnenclosed)
  {
    var enclosing := Info(ct, raw).enclosing;
    var _ :- Need(owner.Some? || enclosing.None?, NoOwnerForEnclosed);
    Need(owner.None? || enclosing.Some?, OwnerForUnenclosed)
  }

  // ---- Descriptor constructors and canonicalisation

  /**
   * The `ParameterizedTypeImpl` constructor: the owner check, then the owner, then each
   * argument in order is checked not to be primitive and canonicalised.
   */
  function NewParameterized(ct: ClassTable, owner: Option<Type>, raw: ClassName, args: seq<Type>): (r: Result<Type>)
    decreases 1 + OptSize(owner) + SumSizes(args), 1
    ensures r.Success? ==> (owner.Some? <==> Info(ct, raw).enclosing.Some?)
    ensures r.Success? ==> forall i | 0 <= i < |args| :: !IsPrimitiveType(ct, args[i])
    ensures EnsureOwnerType(ct, owner, raw).Failure? ==> r == EnsureOwnerType(ct, owner, raw).PropagateFailure()
    ensures EnsureOwnerType(ct, owner, raw).Success? && (exists i | 0 <= i < |args| :: IsPrimitiveType(ct, args[i])) ==>
              r.Failure?
    ensures r.Success? ==> r.value.Param? && r.value.impl && r.value.raw == raw
                           && r.value.owner.Some? == owner.Some? && |r.value.args| == |args|
    ensures r.Success? ==> Size(r.value) <= 1 + OptSize(owner) + SumSizes(args)
    ensures r.Success? && FormedOpt(owner) && AllFormed(args) ==> Canonical(r.value)
    ensures r.Success? ==> Erase(r.value) == Param(EraseOpt(owner), raw, EraseSeq(args), false)
    ensures r.Success? ==> HasVariables(r.value) == (OptHasVariables(owner) || AnyHasVariables(args))
  {
    var _ :- EnsureOwnerType(ct, owner, raw);
    var o :- CanonicalizeOwner(ct, owner);
    var a :- CanonicalizeArgs(ct, args);
    Success(Param(o, raw, a, true))
  }

  function CanonicalizeOwner(ct: ClassTable, owner: Option<Type>): (r: Result<Option<Type>>)
    decreases OptSize(owner), 3
    ensures r.Success? ==> r.value.Some? == owner.Some? && OptSize(r.value) <= OptSize(owner)
    ensures r.Success? && FormedOpt(owner) ==> CanonicalOpt(r.value)
    ensures r.Success? ==> EraseOpt(r.value) == EraseOpt(owner)
    ensures r.Success? ==> OptHasVariables(r.value) == OptHasVariables(owner)
  {
    match owner
    case None => Success(None)
    case Some(o) =>
      var c :- Canonicalize(ct, o);
      Success(Some(c))
  }

  /** The argument loop of the `ParameterizedTypeImpl` constructor. */
  function CanonicalizeArgs(ct: ClassTable, args: seq<Type>): (r: Result<seq<Type>>)
    decreases SumSizes(args), 3
    ensures r.Success? ==> |r.value| == |args| && SumSizes(r.value) <= SumSizes(args)
    ensures r.Success? ==> forall i | 0 <= i < |args| :: !IsPrimitiveType(ct, args[i])
    ensures r.Success? && AllFormed(args) ==> AllCanonical(r.value)
    ensures r.Success? ==> EraseSeq(r.value) == EraseSeq(args)
    ensures r.Success? ==> AnyHasVariables(r.value) == AnyHasVariables(args)
  {
    if |args| == 0 then Success([])
    else
      var _ :- CheckNotPrimitive(ct, args[0]);
      var head :- Canonicalize(ct, args[0]);
      var rest :- CanonicalizeArgs(ct, args[1..]);
      assert forall i | 1 <= i < |args| :: args[i] == args[1..][i - 1];
      Success([head] + rest)
  }

  /** Every argument before the `i`-th is not primitive and canonicalises. */
  predicate ArgsPass(ct: ClassTable, args: seq<Type>, i: nat)
    requires i <= |args|
  {
    forall k | 0 <= k < i :: !IsPrimitiveType(ct, args[k]) && Canonicalize(ct, args[k]).Success?
  }

  /** The argument loop stops at the first argument that fails; a primitive one fails with `PrimitiveNotAllowed`. */
  lemma {:induction false} CanonicalizeArgsFirstPrimitive(ct: ClassTable, args: seq<Type>, i: nat)
    requires i < |args| && IsPrimitiveType(ct, args[i]) && ArgsPass(ct, args, i)
    ensures CanonicalizeArgs(ct, args) == Failure(PrimitiveNotAllowed)
    decreases i
  {
    if i > 0 {
      assert ArgsPass(ct, args[1..], i - 1) by {
        forall k | 0 <= k < i - 1 ensures !IsPrimitiveType(ct, args[1..][k]) && Canonicalize(ct, args[1..][k]).Success? {
          assert args[1..][k] == args[k + 1];
        }
      }
      CanonicalizeArgsFirstPrimitive(ct, args[1..], i - 1);
      assert !IsPrimitiveType(ct, args[0]) && Canonicalize(ct, args[0]).Success?;
    }
  }

  /**
   * The `ParameterizedTypeImpl` constructor with a well-placed owner that canonicalises: the
   * first failing argument, when primitive, makes it fail with `PrimitiveNotAllowed`.
   */
  lemma NewParameterizedFirstPrimitive(ct: ClassTable, owner: Option<Type>, raw: ClassName, args: seq<Type>, i: nat)
    requires EnsureOwnerType(ct, owner, raw).Success? && CanonicalizeOwner(ct, owner).Success?
    requires i < |args| && IsPrimitiveType(ct, args[i]) && ArgsPass(ct, args, i)
    ensures NewParameterized(ct, owner, raw, args) == Failure(PrimitiveNotAllowed)
  {
    CanonicalizeArgsFirstPrimitive(ct, args, i);
  }

  /** The `GenericArrayTypeImpl` constructor. */
  function NewGenericArray(ct: ClassTable, component: Type): (r: Result<Type>)
    decreases 1 + Size(component), 1
    ensures r.Success? ==> r.value.GArray? && r.value.impl && Size(r.value) <= 1 + Size(component)
    ensures r.Success? && Formed(component) ==> Canonical(r.value)
    ensures r.Success? ==> Erase(r.value) == GArray(Erase(component), false)
    ensures r.Success? ==> HasVariables(r.value) == HasVariables(component)
  {
    var c :- Canonicalize(ct, component);
    Success(GArray(c, true))
  }

  /**
   * The `WildcardTypeImpl` constructor: at most one lower bound, exactly one upper bound,
   * no primitive bound, and a lower bound only under an Object upper bound.
   */
  function NewWildcard(ct: ClassTable, upper: seq<Type>, lower: seq<Type>): (r: Result<Type>)
    decreases 1 + SumSizes(upper) + SumSizes(lower), 1
    ensures |lower| > 1 ==> r == Failure(TooManyLowerBounds)
    ensures |lower| <= 1 && |upper| != 1 ==> r == Failure(NotOneUpperBound)
    ensures |lower| == 1 && |upper| == 1 && !IsPrimitiveType(ct, lower[0]) && upper[0] != ObjectType
            ==> r == Failure(BoundedBothWays)
    ensures r.Success? ==> |upper| == 1 && |lower| <= 1 && (|lower| == 1 ==> upper[0] == ObjectType)
    ensures r.Success? ==> forall b | b in lower :: !IsPrimitiveType(ct, b)
    ensures r.Success? && |lower| == 0 ==> !IsPrimitiveType(ct, upper[0])
    ensures r.Success? ==> r.value.Wild? && r.value.impl && |r.value.upper| == 1 && |r.value.lower| == |lower|
    ensures r.Success? ==> Size(r.value) <= 1 + SumSizes(upper) + SumSizes(lower)
    ensures r.Success? && AllFormed(upper) && AllFormed(lower) ==> Canonical(r.value)
    ensures r.Success? ==> Erase(r.value) == Wild(EraseSeq(upper), EraseSeq(lower), false)
    ensures r.Success? ==> HasVariables(r.value) == (AnyHasVariables(upper) || AnyHasVariables(lower))
  {
    var _ :- Need(|lower| <= 1, TooManyLowerBounds);
    var _ :- Need(|upper| == 1, NotOneUpperBound);
    if |lower| == 1 then
      var _ :- CheckNotPrimitive(ct, lower[0]);
      var _ :- Need(upper[0] == ObjectType, BoundedBothWays);
      var lb :- Canonicalize(ct, lower[0]);
      assert upper == [ObjectType] && lower == [lower[0]];
      SingletonSizes(ObjectType);
      SingletonSizes(lb);
      SingletonSizes(lower[0]);
      Success(Wild([ObjectType], [lb], true))
    else
      var _ :- CheckNotPrimitive(ct, upper[0]);
      var ub :- Canonicalize(ct, upper[0]);
      assert upper == [upper[0]] && lower == [];
      SingletonSizes(ub);
      SingletonSizes(upper[0]);
      Success(Wild([ub], [], true))
  }

  /**
   * `Types.canonicalize`: an array class becomes an array descriptor over its canonicalised
   * component (the descriptor constructor canonicalises that component, which changes nothing
   * a second time, see `CanonicalizeIdempotent`); this library's descriptors and non-array
   * classes and type variables are returned as they are; descriptors built elsewhere are
   * rebuilt through this library's constructors.
   */
  function Canonicalize(ct: ClassTable, t: Type): (r: Result<Type>)
    decreases Size(t), 2
    ensures r.Success? ==> Size(r.value) <= Size(t)
    ensures r.Success? && Formed(t) ==> Canonical(r.value)
    ensures r.Success? ==> Erase(r.value) == Erase(t)
    ensures r.Success? ==> HasVariables(r.value) == HasVariables(t)
    ensures r.Success? ==> GetRawType(r.value) == GetRawType(t)
  {
    match t
    case Raw(c) => if c.ArrayOf? then NewGenericArray(ct, Raw(c.component)) else Success(t)
    case Param(o, raw, args, impl) => if impl then Success(t) else NewParameterized(ct, o, raw, args)
    case GArray(c, impl) => if impl then Success(t) else NewGenericArray(ct, c)
    case Wild(u, l, impl) => if impl then Success(t) else NewWildcard(ct, u, l)
    case TVar(_, _) => Success(t)
  }

  /** `Types.parameterizedType`: a top-level parameterized type, built without an owner. */
  function ParameterizedType(ct: ClassTable, raw: ClassName, args: seq<Type>): (r: Result<Type>)
    ensures Info(ct, raw).enclosing.Some? ==> r == Failure(NoOwnerForEnclosed)
    ensures r.Success? ==> r.value.Param? && r.value.owner.None? && r.value.raw == raw && |r.value.args| == |args|
    ensures r.Success? ==> Erase(r.value) == Param(None, raw, EraseSeq(args), false)
  {
    NewParameterized(ct, None, raw, args)
  }

  /** `Types.parameterizedTypeWithOwner`: the owner is required exactly for a nested raw class. */
  function ParameterizedTypeWithOwner(ct: ClassTable, owner: Option<Type>, raw: ClassName, args: seq<Type>): (r: Result<Type>)
    ensures EnsureOwnerType(ct, owner, raw).Failure? ==> r == EnsureOwnerType(ct, owner, raw).PropagateFailure()
    ensures r.Success? ==> r.value.Param? && r.value.raw == raw && r.value.owner.Some? == owner.Some?
                           && |r.value.args| == |args|
    ensures r.Success? ==> Erase(r.value) == Param(EraseOpt(owner), raw, EraseSeq(args), false)
  {
    NewParameterized(ct, owner, raw, args)
  }

  /** `Types.arrayOf`: an array descriptor over the canonical component. */
  function ArrayOfType(ct: ClassTable, component: Type): (r: Result<Type>)
    ensures r.Success? <==> Canonicalize(ct, component).Success?
    ensures r.Success? ==> r == Success(GArray(Canonicalize(ct, component).value, true))
    ensures r.Success? ==> Erase(r.value) == GArray(Erase(component), false)
  {
    NewGenericArray(ct, component)
  }

  /** `Types.subtypeOf`: `? extends bound`, refused for a primitive bound. */
  function SubtypeOf(ct: ClassTable, bound: Type): (r: Result<Type>)
    ensures IsPrimitiveType(ct, bound) ==> r == Failure(PrimitiveNotAllowed)
    ensures r.Success? <==> !IsPrimitiveType(ct, bound) && Canonicalize(ct, bound).Success?
    ensures r.Success? ==> r == Success(Wild([Canonicalize(ct, bound).value], [], true))
  {
    NewWildcard(ct, [bound], [])
  }

  /** `Types.supertypeOf`: `? super bound` under the upper bound Object, refused for a primitive bound. */
  function SupertypeOf(ct: ClassTable, bound: Type): (r: Result<Type>)
    ensures IsPrimitiveType(ct, bound) ==> r == Failure(PrimitiveNotAllowed)
    ensures r.Success? <==> !IsPrimitiveType(ct, bound) && Canonicalize(ct, bound).Success?
    ensures r.Success? ==> r == Success(Wild([ObjectType], [Canonicalize(ct, bound).value], true))
  {
    NewWildcard(ct, [ObjectType], [bound])
  }

  // ---- Canonical descriptors

  /** Built entirely by this library: no array class, and every composite node is its own implementation. */
  predicate Canonical(t: Type) {
    match t
    case Raw(c) => c.Named?
    case Param(o, _, args, impl) => impl && CanonicalOpt(o) && AllCanonical(args)
    case GArray(c, impl) => impl && Canonical(c)
    case Wild(u, l, impl) => impl && |u| == 1 && |l| <= 1 && AllCanonical(u) && AllCanonical(l)
    case TVar(_, _) => true
  }

  predicate CanonicalOpt(o: Option<Type>) {
    o.Some? ==> Canonical(o.value)
  }

  predicate AllCanonical(ts: seq<Type>) {
    forall i | 0 <= i < |ts| :: Canonical(ts[i])
  }

  /**
   * Every descriptor of this library's own implementation inside `t` is canonical: the
   * implementation constructors canonicalise their components, so no other descriptor exists.
   */
  predicate Formed(t: Type) {
    match t
    case Raw(_) => true
    case Param(o, _, args, impl) => if impl then Canonical(t) else FormedOpt(o) && AllFormed(args)
    case GArray(c, impl) => if impl then Canonical(t) else Formed(c)
    case Wild(u, l, impl) => if impl then Canonical(t) else AllFormed(u) && AllFormed(l)
    case TVar(_, _) => true
  }

  predicate FormedOpt(o: Option<Type>) {
    o.Some? ==> Formed(o.value)
  }

  predicate AllFormed(ts: seq<Type>) {
    forall i | 0 <= i < |ts| :: Formed(ts[i])
  }

  /** A descriptor built by the JDK: no composite node of this library. */
  predicate Foreign(t: Type) {
    match t
    case Raw(_) => true
    case Param(o, _, args, impl) => !impl && (o.Some? ==> Foreign(o.value)) && forall i | 0 <= i < |args| :: Foreign(args[i])
    case GArray(c, impl) => !impl && Foreign(c)
    case Wild(u, l, impl) => !impl && (forall i | 0 <= i < |u| :: Foreign(u[i])) && forall i | 0 <= i < |l| :: Foreign(l[i])
    case TVar(_, _) => true
  }

  lemma {:induction false} ForeignIsFormed(t: Type)
    requires Foreign(t)
    ensures Formed(t)
  {
    match t
    case Raw(_) =>
    case TVar(_, _) =>
    case Param(o, _, args, _) =>
      if o.Some? {
        ForeignIsFormed(o.value);
      }
      forall i | 0 <= i < |args| ensures Formed(args[i]) {
        ForeignIsFormed(args[i]);
      }
    case GArray(c, _) =>
      ForeignIsFormed(c);
    case Wild(u, l, _) =>
      forall i | 0 <= i < |u| ensures Formed(u[i]) {
        ForeignIsFormed(u[i]);
      }
      forall i | 0 <= i < |l| ensures Formed(l[i]) {
        ForeignIsFormed(l[i]);
      }
  }

  lemma CanonicalIsFormed(t: Type)
    requires Canonical(t)
    ensures Formed(t)
  {
  }

  /** Canonicalisation is idempotent, and leaves canonical descriptors as they are. */
  lemma CanonicalizeIdempotent(ct: ClassTable, t: Type)
    ensures Canonicalize(ct, t).Success? ==> Canonicalize(ct, Canonicalize(ct, t).value) == Canonicalize(ct, t)
    ensures Canonical(t) ==> Canonicalize(ct, t) == Success(t)
  {
  }

  // ---- Erasure of representation choices

  /**
   * `t` with array classes spelled as array descriptors and with every implementation flag
   * cleared: descriptors with the same erasure denote the same Java type.
   */
  function Erase(t: Type): Type {
    match t
    case Raw(c) => EraseCls(c)
    case Param(o, raw, args, _) => Param(EraseOpt(o), raw, EraseSeq(args), false)
    case GArray(c, _) => GArray(Erase(c), false)
    case Wild(u, l, _) => Wild(EraseSeq(u), EraseSeq(l), false)
    case TVar(_, _) => t
  }

  function EraseCls(c: Cls): Type {
    match c
    case Named(_) => Raw(c)
    case ArrayOf(e) => GArray(EraseCls(e), false)
  }

  function EraseOpt(o: Option<Type>): Option<Type> {
    if o.Some? then Some(Erase(o.value)) else None
  }

  function EraseSeq(ts: seq<Type>): (r: seq<Type>)
    ensures |r| == |ts|
  {
    if |ts| == 0 then [] else [Erase(ts[0])] + EraseSeq(ts[1..])
  }

  // ---- Type variables

  function HasVariables(t: Type): bool {
    match t
    case Raw(_) => false
    case Param(o, _, args, _) => OptHasVariables(o) || AnyHasVariables(args)
    case GArray(c, _) => HasVariables(c)
    case Wild(u, l, _) => AnyHasVariables(u) || AnyHasVariables(l)
    case TVar(_, _) => true
  }

  function OptHasVariables(o: Option<Type>): bool {
    o.Some? && HasVariables(o.value)
  }

  function AnyHasVariables(ts: seq<Type>): bool {
    if |ts| == 0 then false else HasVariables(ts[0]) || AnyHasVariables(ts[1..])
  }

  // ---- Raw types

  /**
   * `Types.getRawType`: a class is its own raw type, a parameterized type has its raw class,
   * an array descriptor has the array class of its component's raw type, a type variable has
   * Object, and a wildcard has none.
   */
  function GetRawType(t: Type): Result<Cls> {
    match t
    case Raw(c) => Success(c)
    case Param(_, raw, _, _) => Success(Named(raw))
    case GArray(c, _) =>
      var rc :- GetRawType(c);
      Success(ArrayOf(rc))
    case TVar(_, _) => Success(Named(ObjectClass))
    case Wild(_, _, _) => Failure(UnsupportedTypeKind)
  }

  /** Following array components from `t` never reaches a wildcard. */
  predicate WildcardFreeSpine(t: Type) {
    match t
    case Wild(_, _, _) => false
    case GArray(c, _) => WildcardFreeSpine(c)
    case _ => true
  }

  /** `getRawType` fails exactly on wildcards, possibly wrapped in array descriptors. */
  lemma {:induction false} GetRawTypeDefined(t: Type)
    ensures GetRawType(t).Success? <==> WildcardFreeSpine(t)
    ensures GetRawType(t).Failure? ==> GetRawType(t).error == UnsupportedTypeKind
  {
    match t
    case GArray(c, _) => GetRawTypeDefined(c);
    case _ =>
  }

  /** The raw type of a canonicalised class is that class again, array classes included. */
  lemma ClassRawTypeRoundTrip(ct: ClassTable, c: Cls)
    ensures Canonicalize(ct, Raw(c)).Success?
    ensures GetRawType(Canonicalize(ct, Raw(c)).value) == Success(c)
    decreases c
  {
    if c.ArrayOf? {
      ClassRawTypeRoundTrip(ct, c.component);
    }
  }

  // ---- Equality

  /**
   * `Types.typeEquals`: the same descriptor, an equal class, or two descriptors of the same
   * kind with equal components (owners, raw classes and argument lists; components; both bound
   * lists; declaration and name).
   */
  function TypeEquals(a: Type, b: Type): bool
    decreases Size(a), 2
  {
    a == b || EqualsAsType(a, b) || EqualsAsGeneric(a, b)
  }

  function EqualsAsType(a: Type, b: Type): bool {
    a.Raw? && a == b
  }

  function EqualsAsGeneric(a: Type, b: Type): bool
    decreases Size(a), 1
  {
    match (a, b)
    case (Param(o1, r1, xs1, _), Param(o2, r2, xs2, _)) => ObjectsEquals(o1, o2) && r1 == r2 && ArraysEquals(xs1, xs2)
    case (GArray(c1, _), GArray(c2, _)) => TypeEquals(c1, c2)
    case (Wild(u1, l1, _), Wild(u2, l2, _)) => ArraysEquals(u1, u2) && ArraysEquals(l1, l2)
    case (TVar(d1, n1), TVar(d2, n2)) => d1 == d2 && n1 == n2
    case _ => false
  }

  /** `Objects.equals` on owners: null equals only null. */
  function ObjectsEquals(a: Option<Type>, b: Option<Type>): bool
    decreases OptSize(a), 3
  {
    if a.None? then b.None? else b.Some? && TypeEquals(a.value, b.value)
  }

  /** `Arrays.equals`: same length and positionally equal elements. */
  function ArraysEquals(xs: seq<Type>, ys: seq<Type>): bool
    decreases SumSizes(xs), 3
  {
    if |xs| != |ys| then false
    else if |xs| == 0 then true
    else TypeEquals(xs[0], ys[0]) && ArraysEquals(xs[1..], ys[1..])
  }

  /** `t` with the implementation flags cleared. */
  function Shape(t: Type): Type {
    match t
    case Raw(_) => t
    case Param(o, raw, args, _) => Param(ShapeOpt(o), raw, ShapeSeq(args), false)
    case GArray(c, _) => GArray(Shape(c), false)
    case Wild(u, l, _) => Wild(ShapeSeq(u), ShapeSeq(l), false)
    case TVar(_, _) => t
  }

  function ShapeOpt(o: Option<Type>): Option<Type> {
    if o.Some? then Some(Shape(o.value)) else None
  }

  function ShapeSeq(ts: seq<Type>): (r: seq<Type>)
    ensures |r| == |ts|
  {
    if |ts| == 0 then [] else [Shape(ts[0])] + ShapeSeq(ts[1..])
  }

  /** `typeEquals` is structural: it holds exactly when the descriptors agree up to implementation. */
  lemma {:induction false} TypeEqualsStructural(a: Type, b: Type)
    ensures TypeEquals(a, b) <==> Shape(a) == Shape(b)
    decreases Size(a), 1
  {
    match (a, b)
    case (Param(o1, r1, xs1, _), Param(o2, r2, xs2, _)) =>
      ObjectsEqualsStructural(o1, o2);
      ArraysEqualsStructural(xs1, xs2);
    case (GArray(c1, _), GArray(c2, _)) =>
      TypeEqualsStructural(c1, c2);
    case (Wild(u1, l1, _), Wild(u2, l2, _)) =>
      ArraysEqualsStructural(u1, u2);
      ArraysEqualsStructural(l1, l2);
    case _ =>
  }

  lemma {:induction false} ObjectsEqualsStructural(a: Option<Type>, b: Option<Type>)
    ensures ObjectsEquals(a, b) <==> ShapeOpt(a) == ShapeOpt(b)
    decreases OptSize(a), 2
  {
    if a.Some? && b.Some? {
      TypeEqualsStructural(a.value, b.value);
    }
  }

  lemma {:induction false} ArraysEqualsStructural(xs: seq<Type>, ys: seq<Type>)
    ensures ArraysEquals(xs, ys) <==> ShapeSeq(xs) == ShapeSeq(ys)
    decreases SumSizes(xs), 2
  {
    if |xs| == |ys| && |xs| > 0 {
      TypeEqualsStructural(xs[0], ys[0]);
      ArraysEqualsStructural(xs[1..], ys[1..]);
      assert ShapeSeq(xs) == [Shape(xs[0])] + ShapeSeq(xs[1..]);
      assert ShapeSeq(ys) == [Shape(ys[0])] + ShapeSeq(ys[1..]);
      if ShapeSeq(xs) == ShapeSeq(ys) {
        assert ShapeSeq(xs)[0] == ShapeSeq(ys)[0];
        assert ShapeSeq(xs)[1..] == ShapeSeq(ys)[1..];
      }
    }
  }

  /** `typeEquals` is an equivalence relation. */
  lemma TypeEqualsEquivalence(a: Type, b: Type, c: Type)
    ensures TypeEquals(a, a)
    ensures TypeEquals(a, b) ==> TypeEquals(b, a)
    ensures TypeEquals(a, b) && TypeEquals(b, c) ==> TypeEquals(a, c)
  {
    TypeEqualsStructural(a, b);
    TypeEqualsStructural(b, a);
    TypeEqualsStructural(b, c);
    TypeEqualsStructural(a, c);
  }

  /** On canonical descriptors `typeEquals` is plain equality of values. */
  lemma CanonicalTypeEquals(a: Type, b: Type)
    requires Canonical(a) && Canonical(b)
    ensures TypeEquals(a, b) <==> a == b
  {
    TypeEqualsStructural(a, b);
    if Shape(a) == Shape(b) {
      ShapeInjective(a, b);
    }
  }

  lemma {:induction false} ShapeInjective(a: Type, b: Type)
    requires Canonical(a) && Canonical(b) && Shape(a) == Shape(b)
    ensures a == b
    decreases Size(a), 1
  {
    match (a, b)
    case (Param(o1, r1, xs1, _), Param(o2, r2, xs2, _)) =>
      if o1.Some? {
        ShapeInjective(o1.value, o2.value);
      }
      ShapeSeqInjective(xs1, xs2);
    case (GArray(c1, _), GArray(c2, _)) =>
      ShapeInjective(c1, c2);
    case (Wild(u1, l1, _), Wild(u2, l2, _)) =>
      ShapeSeqInjective(u1, u2);
      ShapeSeqInjective(l1, l2);
    case _ =>
  }

  lemma {:induction false} ShapeSeqInjective(xs: seq<Type>, ys: seq<Type>)
    requires AllCanonical(xs) && AllCanonical(ys) && ShapeSeq(xs) == ShapeSeq(ys)
    ensures xs == ys
    decreases SumSizes(xs), 2
  {
    if |xs| > 0 {
      assert ShapeSeq(xs)[0] == ShapeSeq(ys)[0];
      assert ShapeSeq(xs)[1..] == ShapeSeq(ys)[1..];
      ShapeInjective(xs[0], ys[0]);
      assert AllCanonical(xs[1..]) && AllCanonical(ys[1..]) by {
        assert forall i | 0 <= i < |xs| - 1 :: xs[1..][i] == xs[i + 1] && ys[1..][i] == ys[i + 1];
      }
      ShapeSeqInjective(xs[1..], ys[1..]);
      assert xs == [xs[0]] + xs[1..];
      assert ys == [ys[0]] + ys[1..];
    }
  }

  // ---- Hash codes

  /** A Java `int` hash code, as the unsigned value of its 32 bits. */
  newtype HashCode = x: int | 0 <= x < 0x1_0000_0000

  /** Java `int` arithmetic wraps around modulo 2^32. */
  function Wrap(x: int): HashCode {
    (x % 0x1_0000_0000) as HashCode
  }

  function Xor(a: HashCode, b: HashCode): HashCode {
    ((a as bv32) ^ (b as bv32)) as HashCode
  }

  /** `31 * h + x` in `int` arithmetic, the step of every Java hash fold. */
  function Step(h: HashCode, x: HashCode): HashCode {
    Wrap(31 * h as int + x as int)
  }

  /** Java's `String.hashCode`. */
  function StringHash(s: string): HashCode {
    if |s| == 0 then 0 else Step(StringHash(s[..|s| - 1]), s[|s| - 1] as int as HashCode)
  }

  /**
   * Stands for the identity hash code of a `Class` object: any fixed function of the class
   * serves, since the model only relies on equal classes hashing equally.
   */
  function ClassHash(c: Cls): HashCode {
    match c
    case Named(n) => StringHash(n)
    case ArrayOf(e) => Step(ClassHash(e), 91)
  }

  /** The JDK hash of a type variable: its declaration's hash xor its name's. */
  function VariableHash(d: GenericDecl, name: string): HashCode {
    match d
    case ClassDecl(c) => Xor(ClassHash(Named(c)), StringHash(name))
    case ExecutableDecl(o, s) => Xor(Xor(StringHash(o), StringHash(s)), StringHash(name))
  }

  /**
   * The implementations' `hashCode`: a parameterized type hashes `Arrays.hashCode(args) ^
   * raw ^ owner-or-0`, an array descriptor hashes as its component, and a wildcard hashes
   * `(lower == null ? 1 : 31 + lower) ^ (31 + upper)`.
   */
  function Hash(t: Type): HashCode
    decreases Size(t), 1
  {
    match t
    case Raw(c) => ClassHash(c)
    case Param(o, raw, args, _) =>
      Xor(Xor(ArraysHash(args, 1), ClassHash(Named(raw))), if o.Some? then Hash(o.value) else 0)
    case GArray(c, _) => Hash(c)
    case Wild(u, l, _) =>
      assert |l| > 0 ==> Size(l[0]) <= SumSizes(l);
      assert |u| > 0 ==> Size(u[0]) <= SumSizes(u);
      WildcardHash(if |u| > 0 then Hash(u[0]) else 0, if |l| > 0 then Some(Hash(l[0])) else None)
    case TVar(d, n) => VariableHash(d, n)
  }

  /** A wildcard's hash from its bounds' hashes: `(lower == null ? 1 : 31 + lower) ^ (31 + upper)`. */
  function WildcardHash(upper: HashCode, lower: Option<HashCode>): HashCode {
    Xor(if lower.Some? then Wrap(31 + lower.value as int) else 1, Wrap(31 + upper as int))
  }

  /** `Arrays.hashCode`: `result = 31 * result + hash(element)`, from 1. */
  function ArraysHash(ts: seq<Type>, acc: HashCode): HashCode
    decreases SumSizes(ts), 2
  {
    if |ts| == 0 then acc else ArraysHash(ts[1..], Step(acc, Hash(ts[0])))
  }

  lemma {:induction false} HashIgnoresImplementation(t: Type)
    ensures Hash(Shape(t)) == Hash(t)
    decreases Size(t), 1
  {
    match t
    case Param(o, raw, args, _) =>
      if o.Some? {
        HashIgnoresImplementation(o.value);
      }
      ArraysHashIgnoresImplementation(args, 1);
      ParamHash(ShapeOpt(o), o, raw, ShapeSeq(args), args, false, t.impl);
    case GArray(c, _) =>
      HashIgnoresImplementation(c);
    case Wild(u, l, _) =>
      if |u| > 0 {
        assert Size(u[0]) <= SumSizes(u);
        HashIgnoresImplementation(u[0]);
        assert ShapeSeq(u)[0] == Shape(u[0]);
      }
      if |l| > 0 {
        assert Size(l[0]) <= SumSizes(l);
        HashIgnoresImplementation(l[0]);
        assert ShapeSeq(l)[0] == Shape(l[0]);
      }
      WildHash(ShapeSeq(u), u, ShapeSeq(l), l, false, t.impl);
    case _ =>
  }

  /** Two parameterized descriptors whose parts hash alike hash alike, whatever their flags. */
  lemma ParamHash(o1: Option<Type>, o2: Option<Type>, raw: ClassName, a1: seq<Type>, a2: seq<Type>, b1: bool, b2: bool)
    requires o1.Some? == o2.Some? && (o1.Some? ==> Hash(o1.value) == Hash(o2.value))
    requires ArraysHash(a1, 1) == ArraysHash(a2, 1)
    ensures Hash(Param(o1, raw, a1, b1)) == Hash(Param(o2, raw, a2, b2))
  {
  }

  /** Two wildcards whose first bounds hash alike hash alike, whatever their flags. */
  lemma WildHash(u1: seq<Type>, u2: seq<Type>, l1: seq<Type>, l2: seq<Type>, b1: bool, b2: bool)
    requires |u1| == |u2| && |l1| == |l2|
    requires |u1| > 0 ==> Hash(u1[0]) == Hash(u2[0])
    requires |l1| > 0 ==> Hash(l1[0]) == Hash(l2[0])
    ensures Hash(Wild(u1, l1, b1)) == Hash(Wild(u2, l2, b2))
  {
  }

  lemma {:induction false} ArraysHashIgnoresImplementation(ts: seq<Type>, acc: HashCode)
    ensures ArraysHash(ShapeSeq(ts), acc) == ArraysHash(ts, acc)
    decreases SumSizes(ts), 2
  {
    if |ts| > 0 {
      HashIgnoresImplementation(ts[0]);
      ArraysHashIgnoresImplementation(ts[1..], Step(acc, Hash(ts[0])));
      ArraysHashCons(Shape(ts[0]), ShapeSeq(ts[1..]), acc);
    }
  }

  lemma ArraysHashCons(x: Type, rest: seq<Type>, acc: HashCode)
    ensures ArraysHash([x] + rest, acc) == ArraysHash(rest, Step(acc, Hash(x)))
  {
    assert ([x] + rest)[0] == x && ([x] + rest)[1..] == rest;
  }

  /** Equal descriptors have equal hash codes. */
  lemma HashConsistent(a: Type, b: Type)
    requires TypeEquals(a, b)
    ensures Hash(a) == Hash(b)
  {
    TypeEqualsStructural(a, b);
    HashIgnoresImplementation(a);
    HashIgnoresImplementation(b);
  }

  // ---- Full specification

  /**
   * `Types.isFullySpecified`: a class is, a type variable is not, one of this library's
   * descriptors asks its components (owner, then arguments; upper, then lower bound), and any
   * other descriptor is canonicalised first.
   */
  function IsFullySpecified(ct: ClassTable, t: Type): Result<bool>
    decreases Size(t), 1
  {
    match t
    case Raw(_) => Success(true)
    case TVar(_, _) => Success(false)
    case _ =>
      if t.impl then CompositeFullySpecified(ct, t)
      else
        var c :- Canonicalize(ct, t);
        CompositeFullySpecified(ct, c)
  }

  /** The `isFullySpecified` methods of the three descriptor implementations. */
  function CompositeFullySpecified(ct: ClassTable, t: Type): Result<bool>
    decreases Size(t), 0
  {
    match t
    case Param(o, _, args, _) =>
      var ownerOk :- if o.Some? then IsFullySpecified(ct, o.value) else Success(true);
      if !ownerOk then Success(false) else AllFullySpecified(ct, args)
    case GArray(c, _) => IsFullySpecified(ct, c)
    case Wild(u, l, _) =>
      var upperOk :- AllFullySpecified(ct, u);
      if !upperOk then Success(false) else AllFullySpecified(ct, l)
    case _ => Success(true)
  }

  function AllFullySpecified(ct: ClassTable, ts: seq<Type>): Result<bool>
    decreases SumSizes(ts), 2
  {
    if |ts| == 0 then Success(true)
    else
      var first :- IsFullySpecified(ct, ts[0]);
      if !first then Success(false) else AllFullySpecified(ct, ts[1..])
  }

  /**
   * For a descriptor that canonicalises, being fully specified means containing no type
   * variable.
   */
  lemma FullySpecifiedIffNoVariables(ct: ClassTable, t: Type)
    requires Formed(t) && Canonicalize(ct, t).Success?
    ensures IsFullySpecified(ct, t) == Success(!HasVariables(t))
  {
    if t.Param? || t.GArray? || t.Wild? {
      var c := Canonicalize(ct, t).value;
      CanonicalFullySpecified(ct, c);
    }
  }

  lemma {:induction false} CanonicalFullySpecified(ct: ClassTable, t: Type)
    requires Canonical(t)
    ensures IsFullySpecified(ct, t) == Success(!HasVariables(t))
    ensures t.Param? || t.GArray? || t.Wild? ==> CompositeFullySpecified(ct, t) == Success(!HasVariables(t))
    decreases Size(t), 1
  {
    match t
    case Param(o, _, args, _) =>
      if o.Some? {
        CanonicalFullySpecified(ct, o.value);
      }
      CanonicalAllFullySpecified(ct, args);
    case GArray(c, _) =>
      CanonicalFullySpecified(ct, c);
    case Wild(u, l, _) =>
      CanonicalAllFullySpecified(ct, u);
      CanonicalAllFullySpecified(ct, l);
    case _ =>
  }

  lemma {:induction false} CanonicalAllFullySpecified(ct: ClassTable, ts: seq<Type>)
    requires AllCanonical(ts)
    ensures AllFullySpecified(ct, ts) == Success(!AnyHasVariables(ts))
    decreases SumSizes(ts), 2
  {
    if |ts| > 0 {
      CanonicalFullySpecified(ct, ts[0]);
      assert AllCanonical(ts[1..]) by {
        assert forall i | 0 <= i < |ts| - 1 :: ts[1..][i] == ts[i + 1];
      }
      CanonicalAllFullySpecified(ct, ts[1..]);
    }
  }

  // ---- The constructor of ParameterizedTypeImpl, as the loop it is written as

  /**
   * The `ParameterizedTypeImpl` constructor: clone the argument array, then check and
   * canonicalise each slot in place.
   */
  method NewParameterizedType(ct: ClassTable, owner: Option<Type>, raw: ClassName, args: seq<Type>)
    returns (r: Result<Type>)
    ensures r == NewParameterized(ct, owner, raw, args)
  {
    var check := EnsureOwnerType(ct, owner, raw);
    if check.Failure? {
      return check.PropagateFailure();
    }
    var o := CanonicalizeOwner(ct, owner);
    if o.Failure? {
      return o.PropagateFailure();
    }
    var typeArguments := new Type[|args|](i requires 0 <= i < |args| => args[i]);
    assert typeArguments[..] == args;
    var filled := CanonicalizeSlots(ct, typeArguments);
    if filled.Failure? {
      return filled.PropagateFailure();
    }
    r := Success(Param(o.value, raw, typeArguments[..], true));
  }

  /**
   * The loop of the `ParameterizedTypeImpl` constructor: each slot in order is checked not
   * to be primitive and replaced by its canonical form, stopping at the first that throws.
   */
  method CanonicalizeSlots(ct: ClassTable, typeArguments: array<Type>) returns (r: Result<()>)
    modifies typeArguments
    ensures r.Failure? ==> CanonicalizeArgs(ct, old(typeArguments[..])) == Failure(r.error)
    ensures r.Success? ==> CanonicalizeArgs(ct, old(typeArguments[..])) == Success(typeArguments[..])
  {
    ghost var args := typeArguments[..];
    var t := 0;
    assert args[0..] == args && typeArguments[..0] == [];
    assert CanonicalizeArgs(ct, args) == Prepend([], CanonicalizeArgs(ct, args)) by {
      var x := CanonicalizeArgs(ct, args);
      if x.Success? {
        assert [] + x.value == x.value;
      }
    }
    while t < typeArguments.Length
      invariant 0 <= t <= typeArguments.Length == |args|
      invariant typeArguments[t..] == args[t..]
      invariant CanonicalizeArgs(ct, args) == Prepend(typeArguments[..t], CanonicalizeArgs(ct, args[t..]))
    {
      assert args[t..][0] == args[t] == typeArguments[t] && args[t..][1..] == args[t + 1..];
      var c := CheckNotPrimitive(ct, typeArguments[t]);
      if c.Failure? {
        assert CanonicalizeArgs(ct, args[t..]) == Failure(c.error);
        return c.PropagateFailure();
      }
      var canon := Canonicalize(ct, typeArguments[t]);
      if canon.Failure? {
        assert CanonicalizeArgs(ct, args[t..]) == Failure(canon.error);
        return canon.PropagateFailure();
      }
      typeArguments[t] := canon.value;
      assert typeArguments[..t + 1] == typeArguments[..t] + [canon.value];
      PrependStep(typeArguments[..t], canon.value, CanonicalizeArgs(ct, args[t + 1..]));
      t := t + 1;
    }
    assert args[t..] == [];
    assert typeArguments[..] == typeArguments[..t] == typeArguments[..t] + [];
    r := Success(());
  }

  /** `prefix` followed by the value of `rest`, or the failure of `rest`. */
  function Prepend(prefix: seq<Type>, rest: Result<seq<Type>>): Result<seq<Type>> {
    if rest.Success? then Success(prefix + rest.value) else rest
  }

  lemma PrependStep(prefix: seq<Type>, head: Type, rest: Result<seq<Type>>)
    ensures Prepend(prefix, if rest.Success? then Success([head] + rest.value) else rest)
         == Prepend(prefix + [head], rest)
  {
    if rest.Success? {
      assert prefix + ([head] + rest.value) == (prefix + [head]) + rest.value;
    }
  }
}
