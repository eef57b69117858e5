/**
 * `es.danpintas.reflect.TypeData`: a canonical descriptor with its raw class and hash code,
 * and the resolution of descriptors written in the context of a supertype or member into
 * the terms of this type.
 */
module Resolution {
  import opened Results
  import opened Reflect
  import opened Types
  import opened Hierarchy

  /** The three final fields of a `TypeData`. */
  datatype TypeData = TypeData(ty: Type, rawType: Cls, hashCode: HashCode)

  /** What the constructor establishes: the raw class and the hash are those of `ty`. */
  predicate Coherent(d: TypeData) {
    GetRawType(d.ty) == Success(d.rawType) && d.hashCode == Hash(d.ty)
  }

  /** `TypeData.get`: canonicalise, then take the raw class and the hash of the result. */
  function Get(ct: ClassTable, t: Type): (r: Result<TypeData>)
    ensures r.Success? ==> Coherent(r.value)
    ensures r.Success? ==> Erase(r.value.ty) == Erase(t)
    ensures r.Success? && Formed(t) ==> Canonical(r.value.ty)
    ensures r.Failure? ==> Canonicalize(ct, t).Failure? || GetRawType(Canonicalize(ct, t).value).Failure?
  {
    var c :- Canonicalize(ct, t);
    var raw :- GetRawType(c);
    Success(TypeData(c, raw, Hash(c)))
  }

  /** `equals`: the descriptors are equal as types. */
  predicate Equals(a: TypeData, b: TypeData) {
    TypeEquals(a.ty, b.ty)
  }

  /** Getting the data of a descriptor already held by a `TypeData` gives that same data. */
  lemma GetIdempotent(ct: ClassTable, t: Type)
    requires Get(ct, t).Success?
    ensures Get(ct, Get(ct, t).value.ty) == Get(ct, t)
  {
    CanonicalizeIdempotent(ct, t);
  }

  /** Equal `TypeData` have equal hash codes. */
  lemma EqualsConsistentWithHash(a: TypeData, b: TypeData)
    requires Coherent(a) && Coherent(b)
    requires Equals(a, b)
    ensures a.hashCode == b.hashCode
  {
    HashConsistent(a.ty, b.ty);
  }

  /**
   * For data of canonical descriptors `equals` is plain equality of the three fields:
   * the raw class and the hash follow from the descriptor.
   */
  lemma EqualsIsIdentity(a: TypeData, b: TypeData)
    requires Coherent(a) && Coherent(b) && Canonical(a.ty) && Canonical(b.ty)
    ensures Equals(a, b) <==> a == b
  {
    CanonicalTypeEquals(a.ty, b.ty);
  }

  /** `equals` is an equivalence relation. */
  lemma EqualsEquivalence(a: TypeData, b: TypeData, c: TypeData)
    ensures Equals(a, a)
    ensures Equals(a, b) ==> Equals(b, a)
    ensures Equals(a, b) && Equals(b, c) ==> Equals(a, c)
  {
    TypeEqualsEquivalence(a.ty, b.ty, c.ty);
  }

  // ---- Resolution, as functions

  /**
   * `resolveType` in the context `ctx`: a variable is replaced by what it stands for in
   * `ctx` until it stays put or is no longer a variable, a composite descriptor is resolved
   * in its parts, anything else is left as it is.  `fuel` bounds the number of variable
   * replacements.
   */
  function Resolved(ct: ClassTable, ctx: TypeData, t: Type, fuel: nat): Result<Type>
    requires Valid(ct)
    decreases fuel, Size(t), 3
  {
    match t
    case TVar(_, _) =>
      if fuel == 0 then Failure(BoundExhausted)
      else
        var next :- ResolveTypeVariable(ct, ctx.ty, ctx.rawType, t);
        if next == t then Success(t) else Resolved(ct, ctx, next, fuel - 1)
    case GArray(_, _) => ResolvedArray(ct, ctx, t, fuel)
    case Param(_, _, _, _) => ResolvedParameterized(ct, ctx, t, fuel)
    case Wild(_, _, _) => ResolvedWildcard(ct, ctx, t, fuel)
    case Raw(_) => Success(t)
  }

  /** `resolveGenericArrayType`: the same descriptor unless the component changed. */
  function ResolvedArray(ct: ClassTable, ctx: TypeData, t: Type, fuel: nat): Result<Type>
    requires Valid(ct) && t.GArray?
    decreases fuel, Size(t), 2
  {
    var component :- Resolved(ct, ctx, t.component, fuel);
    if component == t.component then Success(t) else ArrayOfType(ct, component)
  }

  /**
   * `resolveParameterizedType`: the same descriptor unless the owner or an argument changed;
   * otherwise a new one over the resolved owner and arguments.
   */
  function ResolvedParameterized(ct: ClassTable, ctx: TypeData, t: Type, fuel: nat): Result<Type>
    requires Valid(ct) && t.Param?
    decreases fuel, Size(t), 2
  {
    var owner :- if t.owner.None? then Success(None)
                 else var o :- Resolved(ct, ctx, t.owner.value, fuel); Success(Some(o));
    var args :- ResolvedArgs(ct, ctx, t.args, fuel);
    if owner == t.owner && args == t.args then Success(t)
    else ParameterizedTypeWithOwner(ct, owner, t.raw, args)
  }

  /** The type arguments, resolved left to right; the first failure wins. */
  function ResolvedArgs(ct: ClassTable, ctx: TypeData, ts: seq<Type>, fuel: nat): (r: Result<seq<Type>>)
    requires Valid(ct)
    ensures r.Success? ==> |r.value| == |ts|
    decreases fuel, SumSizes(ts) + 1, 0
  {
    if |ts| == 0 then Success([])
    else
      var head :- Resolved(ct, ctx, ts[0], fuel);
      var rest :- ResolvedArgs(ct, ctx, ts[1..], fuel);
      Success([head] + rest)
  }

  /**
   * `resolveWildcardType`: a wildcard with a lower bound is rebuilt from that bound alone
   * when it changes (its upper bound is not looked at); otherwise one with an upper bound
   * is rebuilt from that bound when it changes; otherwise it is returned as it is.
   */
  function ResolvedWildcard(ct: ClassTable, ctx: TypeData, t: Type, fuel: nat): Result<Type>
    requires Valid(ct) && t.Wild?
    decreases fuel, Size(t), 2
  {
    assert |t.lower| > 0 ==> Size(t.lower[0]) <= SumSizes(t.lower);
    assert |t.upper| > 0 ==> Size(t.upper[0]) <= SumSizes(t.upper);
    if |t.lower| == 1 then
      var lowerBound :- Resolved(ct, ctx, t.lower[0], fuel);
      if lowerBound != t.lower[0] then SupertypeOf(ct, lowerBound) else Success(t)
    else if |t.upper| == 1 then
      var upperBound :- Resolved(ct, ctx, t.upper[0], fuel);
      if upperBound != t.upper[0] then SubtypeOf(ct, upperBound) else Success(t)
    else Success(t)
  }

  /** `resolve`: the data of the resolved descriptor. */
  function Resolve(ct: ClassTable, ctx: TypeData, t: Type, fuel: nat): Result<TypeData>
    requires Valid(ct)
  {
    var r :- Resolved(ct, ctx, t, fuel);
    Get(ct, r)
  }

  /** `resolveAll`: one resolved `TypeData` per descriptor, in order. */
  function ResolvedAll(ct: ClassTable, ctx: TypeData, ts: seq<Type>, fuel: nat): (r: Result<seq<TypeData>>)
    requires Valid(ct)
    ensures r.Success? ==> |r.value| == |ts|
  {
    if |ts| == 0 then Success([])
    else
      var head :- Resolve(ct, ctx, ts[0], fuel);
      var rest :- ResolvedAll(ct, ctx, ts[1..], fuel);
      Success([head] + rest)
  }

  // ---- What resolution promises

  /** A descriptor without variables resolves to itself, whatever the context. */
  lemma {:induction false} ResolveWithoutVariables(ct: ClassTable, ctx: TypeData, t: Type, fuel: nat)
    requires Valid(ct)
    requires !HasVariables(t)
    ensures Resolved(ct, ctx, t, fuel) == Success(t)
    decreases Size(t), 1
  {
    match t
    case GArray(c, _) =>
      ResolveWithoutVariables(ct, ctx, c, fuel);
    case Param(o, _, args, _) =>
      if o.Some? {
        ResolveWithoutVariables(ct, ctx, o.value, fuel);
      }
      ResolveArgsWithoutVariables(ct, ctx, args, fuel);
    case Wild(u, l, _) =>
      if |l| == 1 {
        assert Size(l[0]) <= SumSizes(l);
        SingletonSizes(l[0]);
        assert l == [l[0]];
        ResolveWithoutVariables(ct, ctx, l[0], fuel);
      } else if |u| == 1 {
        assert Size(u[0]) <= SumSizes(u);
        SingletonSizes(u[0]);
        assert u == [u[0]];
        ResolveWithoutVariables(ct, ctx, u[0], fuel);
      }
    case Raw(_) =>
  }

  lemma {:induction false} ResolveArgsWithoutVariables(ct: ClassTable, ctx: TypeData, ts: seq<Type>, fuel: nat)
    requires Valid(ct)
    requires !AnyHasVariables(ts)
    ensures ResolvedArgs(ct, ctx, ts, fuel) == Success(ts)
    decreases SumSizes(ts), 2
  {
    if |ts| > 0 {
      ResolveWithoutVariables(ct, ctx, ts[0], fuel);
      ResolveArgsWithoutVariables(ct, ctx, ts[1..], fuel);
      assert [ts[0]] + ts[1..] == ts;
    }
  }

  /** Type arguments resolve position by position: entry `i` is the resolution of argument `i`. */
  lemma {:induction false} ResolveArgsPointwise(ct: ClassTable, ctx: TypeData, ts: seq<Type>, fuel: nat, i: nat)
    requires Valid(ct)
    requires ResolvedArgs(ct, ctx, ts, fuel).Success? && i < |ts|
    ensures Resolved(ct, ctx, ts[i], fuel) == Success(ResolvedArgs(ct, ctx, ts, fuel).value[i])
  {
    if i > 0 {
      ResolveArgsPointwise(ct, ctx, ts[1..], fuel, i - 1);
    }
  }

  /** `resolveAll` gives entry by entry the data of each resolved descriptor. */
  lemma {:induction false} ResolveAllPointwise(ct: ClassTable, ctx: TypeData, ts: seq<Type>, fuel: nat, i: nat)
    requires Valid(ct)
    requires ResolvedAll(ct, ctx, ts, fuel).Success? && i < |ts|
    ensures Resolve(ct, ctx, ts[i], fuel) == Success(ResolvedAll(ct, ctx, ts, fuel).value[i])
  {
    if i > 0 {
      ResolveAllPointwise(ct, ctx, ts[1..], fuel, i - 1);
    }
  }

  /**
   * `resolveAll` succeeds exactly when every descriptor resolves, and then holds their data
   * in order; otherwise it reports the error of the first descriptor that does not resolve.
   */
  lemma {:induction false} ResolvedAllCharacterised(ct: ClassTable, ctx: TypeData, ts: seq<Type>, fuel: nat)
    requires Valid(ct)
    ensures ResolvedAll(ct, ctx, ts, fuel).Success? <==> forall i | 0 <= i < |ts| :: Resolve(ct, ctx, ts[i], fuel).Success?
    ensures ResolvedAll(ct, ctx, ts, fuel).Success? ==>
              forall i | 0 <= i < |ts| :: Resolve(ct, ctx, ts[i], fuel) == Success(ResolvedAll(ct, ctx, ts, fuel).value[i])
    ensures ResolvedAll(ct, ctx, ts, fuel).Failure? ==>
              exists i | 0 <= i < |ts| :: Resolve(ct, ctx, ts[i], fuel) == Failure(ResolvedAll(ct, ctx, ts, fuel).error)
                                         && forall j | 0 <= j < i :: Resolve(ct, ctx, ts[j], fuel).Success?
  {
    if |ts| > 0 {
      ResolvedAllCharacterised(ct, ctx, ts[1..], fuel);
      var r := ResolvedAll(ct, ctx, ts, fuel);
      if r.Success? {
        forall i | 0 <= i < |ts|
          ensures Resolve(ct, ctx, ts[i], fuel) == Success(r.value[i])
        {
          ResolveAllPointwise(ct, ctx, ts, fuel, i);
        }
      } else if Resolve(ct, ctx, ts[0], fuel).Success? {
        var k :| 0 <= k < |ts[1..]| && Resolve(ct, ctx, ts[1..][k], fuel) == Failure(r.error)
                 && forall j | 0 <= j < k :: Resolve(ct, ctx, ts[1..][j], fuel).Success?;
        assert Resolve(ct, ctx, ts[k + 1], fuel) == Failure(r.error);
        forall j | 0 <= j < k + 1
          ensures Resolve(ct, ctx, ts[j], fuel).Success?
        {
          if j > 0 { assert ts[j] == ts[1..][j - 1]; }
        }
      } else {
        assert Resolve(ct, ctx, ts[0], fuel) == Failure(r.error);
      }
      if forall i | 0 <= i < |ts| :: Resolve(ct, ctx, ts[i], fuel).Success? {
        assert forall i | 0 <= i < |ts[1..]| :: Resolve(ct, ctx, ts[1..][i], fuel).Success? by {
          forall i | 0 <= i < |ts[1..]| ensures Resolve(ct, ctx, ts[1..][i], fuel).Success? {
            assert ts[1..][i] == ts[i + 1];
          }
        }
      }
    }
  }

  /**
   * Resolution keeps the kind of a composite descriptor: a parameterized type stays a
   * parameterized type of the same raw class with as many arguments, an array descriptor
   * stays an array descriptor, and a wildcard stays a wildcard.
   */
  lemma ResolveKeepsKind(ct: ClassTable, ctx: TypeData, t: Type, fuel: nat)
    requires Valid(ct)
    requires !t.TVar? && Resolved(ct, ctx, t, fuel).Success?
    ensures var r := Resolved(ct, ctx, t, fuel).value;
            && (t.Param? ==> r.Param? && r.raw == t.raw && |r.args| == |t.args| && r.owner.Some? == t.owner.Some?)
            && (t.GArray? ==> r.GArray?)
            && (t.Wild? ==> r.Wild?)
            && (t.Raw? ==> r == t)
  {
  }

  // ---- Supertypes and members

  /**
   * `getSupertype`: fails unless `supertype` is a supertype of the raw class, and otherwise
   * resolves the generic view of `supertype`.
   */
  function GetSupertype(ct: ClassTable, ctx: TypeData, supertype: Cls, fuel: nat): (r: Result<TypeData>)
    requires Valid(ct)
    ensures !IsAssignableFrom(ct, supertype, ctx.rawType) ==> r == Failure(NotASupertype)
    ensures IsAssignableFrom(ct, supertype, ctx.rawType) && GenericSupertype(ct, ctx.ty, ctx.rawType, supertype).Failure?
            ==> r == Failure(GenericSupertype(ct, ctx.ty, ctx.rawType, supertype).error)
    ensures IsAssignableFrom(ct, supertype, ctx.rawType) && GenericSupertype(ct, ctx.ty, ctx.rawType, supertype).Success?
            ==> r == Resolve(ct, ctx, GenericSupertype(ct, ctx.ty, ctx.rawType, supertype).value, fuel)
    ensures r.Success? ==> Coherent(r.value)
  {
    var _ :- Need(IsAssignableFrom(ct, supertype, ctx.rawType), NotASupertype);
    var view :- GenericSupertype(ct, ctx.ty, ctx.rawType, supertype);
    Resolve(ct, ctx, view, fuel)
  }

  /** A method or a constructor. */
  datatype Executable = MethodExecutable(m: MethodInfo) | ConstructorExecutable(c: CtorInfo) {
    function Declaring(): ClassName {
      match this
      case MethodExecutable(m) => m.declaring
      case ConstructorExecutable(c) => c.declaring
    }

    /** `getParameters`. */
    function Params(): seq<ParamInfo> {
      match this
      case MethodExecutable(m) => m.params
      case ConstructorExecutable(c) => c.params
    }

    function Modifiers(): Mods {
      match this
      case MethodExecutable(m) => m.mods
      case ConstructorExecutable(c) => c.mods
    }

    function GenericParameterTypes(): (r: seq<Type>)
      ensures |r| == |Params()|
    {
      seq(|Params()|, i requires 0 <= i < |Params()| => Params()[i].genericType)
    }

    function GenericExceptionTypes(): seq<Type> {
      match this
      case MethodExecutable(m) => m.genericExceptionTypes
      case ConstructorExecutable(c) => c.genericExceptionTypes
    }

    /** The message template of `checkAssignableMember` depends on the kind of member. */
    function NotSupertypeError(): Error {
      if ConstructorExecutable? then NotConstructingSupertype else NotDefinedBySupertype
    }
  }

  /** `checkAssignableMember`: the member's declaring class is a supertype of the raw class. */
  function CheckAssignableMember(ct: ClassTable, ctx: TypeData, declaring: ClassName, error: Error): (r: Result<()>)
    requires Valid(ct)
    ensures r.Success? <==> IsAssignableFrom(ct, Named(declaring), ctx.rawType)
    ensures r.Failure? ==> r.error == error
  {
    Need(IsAssignableFrom(ct, Named(declaring), ctx.rawType), error)
  }

  /** `getFieldType`: the resolved generic type of a field of a supertype. */
  function GetFieldType(ct: ClassTable, ctx: TypeData, field: FieldInfo, fuel: nat): (r: Result<TypeData>)
    requires Valid(ct)
    ensures !IsAssignableFrom(ct, Named(field.declaring), ctx.rawType) ==> r == Failure(NotDefinedBySupertype)
    ensures IsAssignableFrom(ct, Named(field.declaring), ctx.rawType) ==> r == Resolve(ct, ctx, field.genericType, fuel)
  {
    var _ :- CheckAssignableMember(ct, ctx, field.declaring, NotDefinedBySupertype);
    Resolve(ct, ctx, field.genericType, fuel)
  }

  /** `getReturnType`: the resolved generic return type of a method of a supertype. */
  function GetReturnType(ct: ClassTable, ctx: TypeData, m: MethodInfo, fuel: nat): (r: Result<TypeData>)
    requires Valid(ct)
    ensures !IsAssignableFrom(ct, Named(m.declaring), ctx.rawType) ==> r == Failure(NotDefinedBySupertype)
    ensures IsAssignableFrom(ct, Named(m.declaring), ctx.rawType) ==> r == Resolve(ct, ctx, m.genericReturnType, fuel)
  {
    var _ :- CheckAssignableMember(ct, ctx, m.declaring, NotDefinedBySupertype);
    Resolve(ct, ctx, m.genericReturnType, fuel)
  }

  /** `getParameterTypes`: one resolved `TypeData` per generic parameter type, in order. */
  function GetParameterTypes(ct: ClassTable, ctx: TypeData, e: Executable, fuel: nat): (r: Result<seq<TypeData>>)
    requires Valid(ct)
    ensures !IsAssignableFrom(ct, Named(e.Declaring()), ctx.rawType) ==> r == Failure(e.NotSupertypeError())
    ensures IsAssignableFrom(ct, Named(e.Declaring()), ctx.rawType) ==> r == ResolvedAll(ct, ctx, e.GenericParameterTypes(), fuel)
    ensures IsAssignableFrom(ct, Named(e.Declaring()), ctx.rawType) ==>
              (r.Success? <==> forall i | 0 <= i < |e.GenericParameterTypes()| :: Resolve(ct, ctx, e.GenericParameterTypes()[i], fuel).Success?)
    ensures r.Success? ==> |r.value| == |e.GenericParameterTypes()|
    ensures r.Success? ==> forall i | 0 <= i < |r.value| :: Resolve(ct, ctx, e.GenericParameterTypes()[i], fuel) == Success(r.value[i])
  {
    var _ :- CheckAssignableMember(ct, ctx, e.Declaring(), e.NotSupertypeError());
    ResolvedAllCharacterised(ct, ctx, e.GenericParameterTypes(), fuel);
    ResolvedAll(ct, ctx, e.GenericParameterTypes(), fuel)
  }

  /** `getExceptionTypes`: one resolved `TypeData` per generic exception type, in order. */
  function GetExceptionTypes(ct: ClassTable, ctx: TypeData, e: Executable, fuel: nat): (r: Result<seq<TypeData>>)
    requires Valid(ct)
    ensures !IsAssignableFrom(ct, Named(e.Declaring()), ctx.rawType) ==> r == Failure(e.NotSupertypeError())
    ensures IsAssignableFrom(ct, Named(e.Declaring()), ctx.rawType) ==> r == ResolvedAll(ct, ctx, e.GenericExceptionTypes(), fuel)
    ensures IsAssignableFrom(ct, Named(e.Declaring()), ctx.rawType) ==>
              (r.Success? <==> forall i | 0 <= i < |e.GenericExceptionTypes()| :: Resolve(ct, ctx, e.GenericExceptionTypes()[i], fuel).Success?)
    ensures r.Success? ==> |r.value| == |e.GenericExceptionTypes()|
    ensures r.Success? ==> forall i | 0 <= i < |r.value| :: Resolve(ct, ctx, e.GenericExceptionTypes()[i], fuel) == Success(r.value[i])
  {
    var _ :- CheckAssignableMember(ct, ctx, e.Declaring(), e.NotSupertypeError());
    ResolvedAllCharacterised(ct, ctx, e.GenericExceptionTypes(), fuel);
    ResolvedAll(ct, ctx, e.GenericExceptionTypes(), fuel)
  }

  // ---- Resolution, as the loops it is written as

  /** The `while (true)` loop of `resolveType`, reassigning the descriptor it works on. */
  method ResolveType(ct: ClassTable, ctx: TypeData, r: Type, fuel: nat) returns (res: Result<Type>)
    requires Valid(ct)
    ensures res == Resolved(ct, ctx, r, fuel)
    decreases fuel, Size(r), 3
  {
    var toResolve := r;
    var f: nat := fuel;
    while true
      invariant f <= fuel && (f == fuel ==> toResolve == r)
      invariant Resolved(ct, ctx, toResolve, f) == Resolved(ct, ctx, r, fuel)
      decreases f
    {
      if toResolve.TVar? {
        if f == 0 {
          return Failure(BoundExhausted);
        }
        var original := toResolve;
        var next := ResolveTypeVariable(ct, ctx.ty, ctx.rawType, original);
        if next.Failure? {
          return next.PropagateFailure();
        }
        toResolve := next.value;
        if toResolve == original {
          return Success(toResolve);
        }
        f := f - 1;
      } else if toResolve.GArray? {
        res := ResolveGenericArrayType(ct, ctx, toResolve, f);
        return;
      } else if toResolve.Param? {
        res := ResolveParameterizedType(ct, ctx, toResolve, f);
        return;
      } else if toResolve.Wild? {
        res := ResolveWildcardType(ct, ctx, toResolve, f);
        return;
      } else {
        return Success(toResolve);
      }
    }
  }

  method ResolveGenericArrayType(ct: ClassTable, ctx: TypeData, toResolve: Type, fuel: nat) returns (res: Result<Type>)
    requires Valid(ct) && toResolve.GArray?
    ensures res == ResolvedArray(ct, ctx, toResolve, fuel)
    decreases fuel, Size(toResolve), 2
  {
    var componentType := toResolve.component;
    var newComponentType := ResolveType(ct, ctx, componentType, fuel);
    if newComponentType.Failure? {
      return newComponentType.PropagateFailure();
    }
    if componentType == newComponentType.value {
      return Success(toResolve);
    }
    return ArrayOfType(ct, newComponentType.value);
  }

  /**
   * `resolveParameterizedType`: the owner, then the arguments are resolved; a new type is
   * made only when one of them changed.
   */
  method ResolveParameterizedType(ct: ClassTable, ctx: TypeData, toResolve: Type, fuel: nat) returns (res: Result<Type>)
    requires Valid(ct) && toResolve.Param?
    ensures res == ResolvedParameterized(ct, ctx, toResolve, fuel)
    decreases fuel, Size(toResolve), 2
  {
    var ownerType := toResolve.owner;
    var newOwnerType: Option<Type> := None;
    if ownerType.Some? {
      var o := ResolveType(ct, ctx, ownerType.value, fuel);
      if o.Failure? {
        return o.PropagateFailure();
      }
      newOwnerType := Some(o.value);
    }
    var args, argsChanged := ResolveArgs(ct, ctx, toResolve.args, fuel);
    if args.Failure? {
      return args.PropagateFailure();
    }
    var changed := newOwnerType != ownerType || argsChanged;
    if changed {
      return ParameterizedTypeWithOwner(ct, newOwnerType, toResolve.raw, args.value);
    }
    return Success(toResolve);
  }

  /**
   * The loop of `resolveParameterizedType` over the type arguments: each one resolved in turn,
   * a changed one replaced in the copy, and whether any changed.
   */
  method ResolveArgs(ct: ClassTable, ctx: TypeData, original: seq<Type>, fuel: nat) returns (res: Result<seq<Type>>, changed: bool)
    requires Valid(ct)
    ensures res == ResolvedArgs(ct, ctx, original, fuel)
    ensures res.Success? ==> (changed <==> res.value != original)
    decreases fuel, SumSizes(original) + 1, 0
  {
    changed := false;
    var args := original;
    assert original[0..] == original && args[..0] == [];
    assert ResolvedArgs(ct, ctx, original, fuel) == Prepend([], ResolvedArgs(ct, ctx, original, fuel)) by {
      var x := ResolvedArgs(ct, ctx, original, fuel);
      if x.Success? {
        assert [] + x.value == x.value;
      }
    }
    for t := 0 to |original|
      invariant |args| == |original|
      invariant args[t..] == original[t..]
      invariant changed == (args != original)
      invariant ResolvedArgs(ct, ctx, original, fuel) == Prepend(args[..t], ResolvedArgs(ct, ctx, original[t..], fuel))
    {
      ArgStep(ct, ctx, original, t, fuel);
      var resolvedTypeArgument := ResolveType(ct, ctx, args[t], fuel);
      if resolvedTypeArgument.Failure? {
        return resolvedTypeArgument.PropagateFailure(), changed;
      }
      ghost var before := args;
      if resolvedTypeArgument.value != args[t] {
        if !changed {
          changed := true;
        }
        args := args[t := resolvedTypeArgument.value];
      }
      assert args[..t + 1] == before[..t] + [resolvedTypeArgument.value];
      assert args[t + 1..] == original[t + 1..];
      PrependStep(before[..t], resolvedTypeArgument.value, ResolvedArgs(ct, ctx, original[t + 1..], fuel));
    }
    assert args[..|original|] == args;
    assert ResolvedArgs(ct, ctx, original, fuel) == Success(args) by {
      assert original[|original|..] == [];
      assert args + [] == args;
    }
    res := Success(args);
  }

  /** One step of `ResolvedArgs` from position `t`: the argument there, then the rest. */
  lemma ArgStep(ct: ClassTable, ctx: TypeData, ts: seq<Type>, t: nat, fuel: nat)
    requires Valid(ct) && t < |ts|
    ensures Size(ts[t]) < SumSizes(ts) + 1
    ensures var step := ResolvedArgs(ct, ctx, ts[t..], fuel);
            var head := Resolved(ct, ctx, ts[t], fuel);
            step == if head.Failure? then head.PropagateFailure()
                    else var rest := ResolvedArgs(ct, ctx, ts[t + 1..], fuel);
                         if rest.Success? then Success([head.value] + rest.value) else rest
  {
    ArgSize(ts, t);
    assert ts[t..][0] == ts[t] && ts[t..][1..] == ts[t + 1..];
  }

  lemma {:induction false} ArgSize(ts: seq<Type>, i: nat)
    requires i < |ts|
    ensures Size(ts[i]) <= SumSizes(ts)
  {
    if i > 0 {
      ArgSize(ts[1..], i - 1);
    }
  }

  method ResolveWildcardType(ct: ClassTable, ctx: TypeData, toResolve: Type, fuel: nat) returns (res: Result<Type>)
    requires Valid(ct) && toResolve.Wild?
    ensures res == ResolvedWildcard(ct, ctx, toResolve, fuel)
    decreases fuel, Size(toResolve), 2
  {
    var originalLowerBound := toResolve.lower;
    var originalUpperBound := toResolve.upper;
    assert |originalLowerBound| > 0 ==> Size(originalLowerBound[0]) <= SumSizes(originalLowerBound);
    assert |originalUpperBound| > 0 ==> Size(originalUpperBound[0]) <= SumSizes(originalUpperBound);
    if |originalLowerBound| == 1 {
      var lowerBound := ResolveType(ct, ctx, originalLowerBound[0], fuel);
      if lowerBound.Failure? {
        return lowerBound.PropagateFailure();
      }
      if lowerBound.value != originalLowerBound[0] {
        return SupertypeOf(ct, lowerBound.value);
      }
    } else if |originalUpperBound| == 1 {
      var upperBound := ResolveType(ct, ctx, originalUpperBound[0], fuel);
      if upperBound.Failure? {
        return upperBound.PropagateFailure();
      }
      if upperBound.value != originalUpperBound[0] {
        return SubtypeOf(ct, upperBound.value);
      }
    }
    return Success(toResolve);
  }

  /** `resolveAll`: fills a result list slot by slot. */
  method ResolveAll(ct: ClassTable, ctx: TypeData, types: seq<Type>, fuel: nat) returns (res: Result<seq<TypeData>>)
    requires Valid(ct)
    ensures res == ResolvedAll(ct, ctx, types, fuel)
  {
    var result: seq<TypeData> := [];
    assert types[0..] == types;
    assert ResolvedAll(ct, ctx, types, fuel) == PrependData([], ResolvedAll(ct, ctx, types, fuel)) by {
      var x := ResolvedAll(ct, ctx, types, fuel);
      if x.Success? {
        assert [] + x.value == x.value;
      }
    }
    for t := 0 to |types|
      invariant |result| == t
      invariant ResolvedAll(ct, ctx, types, fuel) == PrependData(result, ResolvedAll(ct, ctx, types[t..], fuel))
    {
      assert types[t..][0] == types[t] && types[t..][1..] == types[t + 1..];
      var resolved := ResolveType(ct, ctx, types[t], fuel);
      if resolved.Failure? {
        return resolved.PropagateFailure();
      }
      var d := Get(ct, resolved.value);
      if d.Failure? {
        return d.PropagateFailure();
      }
      ghost var before := result;
      result := result + [d.value];
      ghost var rest := ResolvedAll(ct, ctx, types[t + 1..], fuel);
      if rest.Success? {
        assert before + ([d.value] + rest.value) == result + rest.value;
      }
    }
    assert types[|types|..] == [];
    assert result + [] == result;
    return Success(result);
  }

  function PrependData(prefix: seq<TypeData>, rest: Result<seq<TypeData>>): Result<seq<TypeData>> {
    if rest.Success? then Success(prefix + rest.value) else rest
  }
}
