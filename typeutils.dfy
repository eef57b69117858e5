/**
 * `es.danpintas.tdi.utils.TypeUtils`: the reflective lookups of the container, as loops over
 * the declared members of one class of the table, each proved against a function that says
 * which members it selects.
 */
module TypeUtils {
  import opened Results
  import opened Reflect
  import opened Hierarchy

  // ---- Filtering, the shape of every lookup below

  /** The elements of `xs` satisfying `p`, in their order. */
  function Filter<T>(xs: seq<T>, p: T -> bool): (r: seq<T>)
    ensures |r| <= |xs|
    ensures forall k | 0 <= k < |r| :: p(r[k])
  {
    if |xs| == 0 then []
    else Filter(xs[..|xs| - 1], p) + (if p(xs[|xs| - 1]) then [xs[|xs| - 1]] else [])
  }

  lemma FilterSnoc<T>(xs: seq<T>, x: T, p: T -> bool)
    ensures Filter(xs + [x], p) == Filter(xs, p) + (if p(x) then [x] else [])
  {
    assert (xs + [x])[..|xs + [x]| - 1] == xs;
  }

  lemma {:induction false} FilterAppend<T>(xs: seq<T>, ys: seq<T>, p: T -> bool)
    ensures Filter(xs + ys, p) == Filter(xs, p) + Filter(ys, p)
  {
    if |ys| > 0 {
      var init, last := ys[..|ys| - 1], ys[|ys| - 1];
      assert xs + ys == (xs + init) + [last];
      FilterSnoc(xs + init, last, p);
      FilterAppend(xs, init, p);
      assert ys == init + [last];
      FilterSnoc(init, last, p);
    } else {
      assert xs + ys == xs;
    }
  }

  /** A filter keeps every occurrence of a selected element and none of the others. */
  lemma {:induction false} FilterCount<T>(xs: seq<T>, p: T -> bool, x: T)
    ensures multiset(Filter(xs, p))[x] == if p(x) then multiset(xs)[x] else 0
  {
    if |xs| > 0 {
      var init, last := xs[..|xs| - 1], xs[|xs| - 1];
      assert xs == init + [last];
      FilterCount(init, p, x);
    }
  }

  /** Nothing is selected exactly when no element satisfies `p`. */
  lemma FilterEmpty<T>(xs: seq<T>, p: T -> bool)
    ensures |Filter(xs, p)| == 0 <==> forall k | 0 <= k < |xs| :: !p(xs[k])
  {
    if exists k | 0 <= k < |xs| :: p(xs[k]) {
      var k :| 0 <= k < |xs| && p(xs[k]);
      FilterCount(xs, p, xs[k]);
      assert xs[k] in multiset(xs);
    }
  }

  /** Two elements are selected as soon as two positions satisfy `p`. */
  lemma {:induction false} FilterTwo<T>(xs: seq<T>, p: T -> bool, i: nat, j: nat)
    requires i < j < |xs| && p(xs[i]) && p(xs[j])
    ensures |Filter(xs, p)| >= 2
  {
    var init := xs[..|xs| - 1];
    if j < |xs| - 1 {
      FilterTwo(init, p, i, j);
    } else {
      assert init[i] == xs[i];
      FilterEmpty(init, p);
    }
  }

  /** At most one element is selected when no two positions satisfy `p`. */
  lemma {:induction false} FilterAtMostOne<T>(xs: seq<T>, p: T -> bool)
    requires forall i, j | 0 <= i < j < |xs| :: !(p(xs[i]) && p(xs[j]))
    ensures |Filter(xs, p)| <= 1
  {
    if |xs| > 0 {
      var init := xs[..|xs| - 1];
      assert forall k | 0 <= k < |init| :: init[k] == xs[k];
      FilterAtMostOne(init, p);
      FilterEmpty(init, p);
    }
  }

  /** Every selected element comes from `xs`. */
  lemma FilterSubset<T>(xs: seq<T>, p: T -> bool, x: T)
    requires x in Filter(xs, p)
    ensures x in xs && p(x)
  {
    FilterCount(xs, p, x);
  }

  /** Filtering keeps the relative order of what it keeps. */
  lemma {:induction false} FilterOrdered<T>(xs: seq<T>, p: T -> bool, before: (T, T) -> bool)
    requires forall k1, k2 | 0 <= k1 < k2 < |xs| :: before(xs[k1], xs[k2])
    ensures forall k1, k2 | 0 <= k1 < k2 < |Filter(xs, p)| :: before(Filter(xs, p)[k1], Filter(xs, p)[k2])
  {
    if |xs| > 0 {
      var init, x := xs[..|xs| - 1], xs[|xs| - 1];
      assert forall k1, k2 | 0 <= k1 < k2 < |init| :: init[k1] == xs[k1] && init[k2] == xs[k2];
      FilterOrdered(init, p, before);
      FilterSnoc(init, x, p);
      assert xs == init + [x];
      var f := Filter(init, p);
      if p(x) {
        forall k | 0 <= k < |f|
          ensures before(f[k], x)
        {
          FilterSubset(init, p, f[k]);
          var j :| 0 <= j < |init| && init[j] == f[k];
          assert xs[j] == f[k] && xs[|xs| - 1] == x;
        }
        var g := f + [x];
        forall k1, k2 | 0 <= k1 < k2 < |g|
          ensures before(g[k1], g[k2])
        {
          if k2 < |f| {
            assert g[k1] == f[k1] && g[k2] == f[k2];
          }
        }
      }
    }
  }

  /** A single selected element is the only element satisfying `p`. */
  lemma FilterSingle<T>(xs: seq<T>, p: T -> bool)
    requires |Filter(xs, p)| == 1
    ensures Filter(xs, p)[0] in xs
    ensures forall k | 0 <= k < |xs| && p(xs[k]) :: xs[k] == Filter(xs, p)[0]
  {
    var only := Filter(xs, p)[0];
    assert Filter(xs, p) == [only];
    FilterSubset(xs, p, only);
    forall k | 0 <= k < |xs| && p(xs[k])
      ensures xs[k] == only
    {
      FilterCount(xs, p, xs[k]);
      assert xs[k] in multiset(xs);
    }
  }

  // ---- Annotations

  /** `getDeclaredAnnotation(a) != null`: an annotation of type `a` is among `annotations`. */
  predicate Annotated(annotations: seq<Annotation>, a: ClassName) {
    exists k | 0 <= k < |annotations| :: annotations[k].annotationType == a
  }

  predicate IsInjectField(f: FieldInfo) {
    Annotated(f.annotations, InjectAnnotation)
  }

  predicate IsInjectConstructor(c: CtorInfo) {
    Annotated(c.annotations, InjectAnnotation)
  }

  predicate IsInjectMethod(m: MethodInfo) {
    Annotated(m.annotations, InjectAnnotation)
  }

  /** The methods carrying an annotation of type `a`. */
  function AnnotatedWith(a: ClassName): MethodInfo -> bool {
    (m: MethodInfo) => Annotated(m.annotations, a)
  }

  // ---- getInjectFields

  /** `getDeclaredFields`: the fields a class declares itself; an array class declares none. */
  function DeclaredFields(ct: ClassTable, c: Cls): seq<FieldInfo> {
    match c
    case Named(n) => Info(ct, n).fields
    case ArrayOf(_) => []
  }

  /** `getInjectFields`: the declared fields carrying `@Inject`, in declaration order. */
  method GetInjectFields(ct: ClassTable, c: Cls) returns (fields: seq<FieldInfo>)
    ensures fields == Filter(DeclaredFields(ct, c), IsInjectField)
  {
    var declared := DeclaredFields(ct, c);
    fields := [];
    for k := 0 to |declared|
      invariant fields == Filter(declared[..k], IsInjectField)
    {
      FilterSnoc(declared[..k], declared[k], IsInjectField);
      assert declared[..k + 1] == declared[..k] + [declared[k]];
      if IsInjectField(declared[k]) {
        fields := fields + [declared[k]];
      }
    }
    assert declared[..|declared|] == declared;
  }

  /** The selected fields are the `@Inject` ones, each as often as it is declared. */
  lemma InjectFieldsExactly(ct: ClassTable, c: Cls, f: FieldInfo)
    ensures f in Filter(DeclaredFields(ct, c), IsInjectField) <==> f in DeclaredFields(ct, c) && IsInjectField(f)
    ensures multiset(Filter(DeclaredFields(ct, c), IsInjectField))[f]
            == if IsInjectField(f) then multiset(DeclaredFields(ct, c))[f] else 0
  {
    FilterCount(DeclaredFields(ct, c), IsInjectField, f);
  }

  // ---- getOnlyNoArgAnnotatedMethod

  /**
   * The state of the scan of `getOnlyNoArgAnnotatedMethod` after the methods `ms`: the
   * annotated method found so far, or the exception thrown.  An annotated method is first
   * checked for parameters, then for being the second one.
   */
  function HookScan(ms: seq<MethodInfo>, a: ClassName): Result<Option<MethodInfo>> {
    if |ms| == 0 then Success(None) else HookStep(HookScan(ms[..|ms| - 1], a), ms[|ms| - 1], a)
  }

  /** One iteration of the scan, on the method `m`. */
  function HookStep(before: Result<Option<MethodInfo>>, m: MethodInfo, a: ClassName): Result<Option<MethodInfo>> {
    var found :- before;
    if !Annotated(m.annotations, a) then Success(found)
    else if |m.params| > 0 then Failure(HookHasArguments)
    else if found.Some? then Failure(MoreThanOneHook)
    else Success(Some(m))
  }

  /** Once the scan has thrown, later methods do not matter. */
  lemma {:induction false} HookScanFailed(ms: seq<MethodInfo>, a: ClassName, k: nat)
    requires k <= |ms| && HookScan(ms[..k], a).Failure?
    ensures HookScan(ms, a) == HookScan(ms[..k], a)
  {
    if k < |ms| {
      assert ms[..|ms| - 1][..k] == ms[..k];
      HookScanFailed(ms[..|ms| - 1], a, k);
    } else {
      assert ms[..k] == ms;
    }
  }

  /** `getOnlyNoArgAnnotatedMethod`: the loop over the declared methods of `type`. */
  method GetOnlyNoArgAnnotatedMethod(ct: ClassTable, c: Cls, a: ClassName) returns (r: Result<Option<MethodInfo>>)
    ensures r == HookScan(DeclaredMethods(ct, c), a)
  {
    var ms := DeclaredMethods(ct, c);
    var postConstruct: Option<MethodInfo> := None;
    for k := 0 to |ms|
      invariant HookScan(ms[..k], a) == Success(postConstruct)
    {
      var m := ms[k];
      assert ms[..k + 1][..k] == ms[..k];
      if Annotated(m.annotations, a) {
        if |m.params| > 0 {
          HookScanFailed(ms, a, k + 1);
          return Failure(HookHasArguments);
        } else if postConstruct.Some? {
          HookScanFailed(ms, a, k + 1);
          return Failure(MoreThanOneHook);
        } else {
          postConstruct := Some(m);
        }
      }
    }
    assert ms[..|ms|] == ms;
    r := Success(postConstruct);
  }

  /** `getPostConstructMethod`. */
  method GetPostConstructMethod(ct: ClassTable, c: Cls) returns (r: Result<Option<MethodInfo>>)
    ensures r == HookScan(DeclaredMethods(ct, c), PostConstructAnnotation)
  {
    r := GetOnlyNoArgAnnotatedMethod(ct, c, PostConstructAnnotation);
  }

  /** `getPreDestroyMethod`. */
  method GetPreDestroyMethod(ct: ClassTable, c: Cls) returns (r: Result<Option<MethodInfo>>)
    ensures r == HookScan(DeclaredMethods(ct, c), PreDestroyAnnotation)
  {
    r := GetOnlyNoArgAnnotatedMethod(ct, c, PreDestroyAnnotation);
  }

  /** Some of the first two annotated methods has parameters. */
  predicate EarlyArguments(hooks: seq<MethodInfo>) {
    exists k | 0 <= k < |hooks| && k < 2 :: |hooks[k].params| > 0
  }

  /** What the hook lookup yields given the annotated methods `hooks`, in their order. */
  predicate HookOutcome(hooks: seq<MethodInfo>, r: Result<Option<MethodInfo>>) {
    && (r.Success? <==> |hooks| <= 1 && !EarlyArguments(hooks))
    && (r.Success? ==> r.value == if |hooks| == 0 then None else Some(hooks[0]))
    && (r.Failure? ==> (r.error == HookHasArguments <==> EarlyArguments(hooks)))
    && (r.Failure? ==> (r.error == MoreThanOneHook <==> !EarlyArguments(hooks)))
  }

  lemma HookStepOutcome(hooks: seq<MethodInfo>, before: Result<Option<MethodInfo>>, m: MethodInfo, a: ClassName)
    requires HookOutcome(hooks, before)
    ensures HookOutcome(hooks + (if AnnotatedWith(a)(m) then [m] else []), HookStep(before, m, a))
  {
    if AnnotatedWith(a)(m) {
      var after := hooks + [m];
      if |hooks| == 0 {
        assert EarlyArguments(after) <==> |m.params| > 0 by {
          assert after[0] == m;
        }
      } else if |hooks| == 1 {
        assert EarlyArguments(after) <==> EarlyArguments(hooks) || |m.params| > 0 by {
          assert after[0] == hooks[0] && after[1] == m;
        }
      } else {
        assert EarlyArguments(after) <==> EarlyArguments(hooks) by {
          assert after[0] == hooks[0] && after[1] == hooks[1];
        }
      }
    } else {
      assert hooks + [] == hooks;
    }
  }

  /**
   * The hook lookup finds no method when none is annotated, the single annotated method when
   * there is one and it takes no arguments, and throws otherwise: `HookHasArguments` when one
   * of the first two annotated methods takes arguments, `MoreThanOneHook` when it meets a
   * second annotated method first.
   */
  lemma {:induction false} HookScanCharacterised(ms: seq<MethodInfo>, a: ClassName)
    ensures HookOutcome(Filter(ms, AnnotatedWith(a)), HookScan(ms, a))
  {
    if |ms| > 0 {
      var init := ms[..|ms| - 1];
      HookScanCharacterised(init, a);
      HookStepOutcome(Filter(init, AnnotatedWith(a)), HookScan(init, a), ms[|ms| - 1], a);
    }
  }

  // ---- getInjectConstructor

  /** `getDeclaredConstructors`: an array class declares none. */
  function DeclaredConstructors(ct: ClassTable, c: Cls): seq<CtorInfo> {
    match c
    case Named(n) => Info(ct, n).ctors
    case ArrayOf(_) => []
  }

  /** The outcome of `getInjectConstructor` on the `@Inject` constructors found. */
  function SelectInjectConstructor(injectable: seq<CtorInfo>): Result<Option<CtorInfo>> {
    if |injectable| == 0 then Success(None)
    else if |injectable| == 1 then Success(Some(injectable[0]))
    else Failure(MoreThanOneInjectConstructor)
  }

  /** `getInjectConstructor`: the `@Inject` constructors, then a switch on their number. */
  method GetInjectConstructor(ct: ClassTable, c: Cls) returns (r: Result<Option<CtorInfo>>)
    ensures r == SelectInjectConstructor(Filter(DeclaredConstructors(ct, c), IsInjectConstructor))
  {
    var dc := DeclaredConstructors(ct, c);
    var constructors := [];
    for k := 0 to |dc|
      invariant constructors == Filter(dc[..k], IsInjectConstructor)
    {
      FilterSnoc(dc[..k], dc[k], IsInjectConstructor);
      assert dc[..k + 1] == dc[..k] + [dc[k]];
      if IsInjectConstructor(dc[k]) {
        constructors := constructors + [dc[k]];
      }
    }
    assert dc[..|dc|] == dc;
    if |constructors| == 0 {
      r := Success(None);
    } else if |constructors| == 1 {
      r := Success(Some(constructors[0]));
    } else {
      r := Failure(MoreThanOneInjectConstructor);
    }
  }

  /**
   * No `@Inject` constructor gives null; a single one is returned, and it is the only
   * annotated constructor; two annotated constructors throw.
   */
  lemma InjectConstructorCharacterised(ctors: seq<CtorInfo>)
    ensures var r := SelectInjectConstructor(Filter(ctors, IsInjectConstructor));
            && (r == Success(None) <==> forall k | 0 <= k < |ctors| :: !IsInjectConstructor(ctors[k]))
            && (r.Success? && r.value.Some? ==>
                  var c := r.value.value;
                  && c in ctors && IsInjectConstructor(c)
                  && forall k | 0 <= k < |ctors| && IsInjectConstructor(ctors[k]) :: ctors[k] == c)
            && ((exists i, j | 0 <= i < j < |ctors| :: IsInjectConstructor(ctors[i]) && IsInjectConstructor(ctors[j]))
                  ==> r == Failure(MoreThanOneInjectConstructor))
  {
    FilterEmpty(ctors, IsInjectConstructor);
    if |Filter(ctors, IsInjectConstructor)| == 1 {
      FilterSingle(ctors, IsInjectConstructor);
    }
    if exists i, j | 0 <= i < j < |ctors| :: IsInjectConstructor(ctors[i]) && IsInjectConstructor(ctors[j]) {
      var i, j :| 0 <= i < j < |ctors| && IsInjectConstructor(ctors[i]) && IsInjectConstructor(ctors[j]);
      FilterTwo(ctors, IsInjectConstructor, i, j);
    }
  }

  // ---- getQualifierAnnotation

  /** `a instanceof Qualifier`: the meta-annotation marking qualifier annotation types. */
  predicate IsQualifierMeta(a: Annotation) {
    a.annotationType == QualifierAnnotation
  }

  /** The annotations of an annotation type, read from the class table. */
  function MetaAnnotations(ct: ClassTable, q: Annotation): seq<Annotation> {
    Info(ct, q.annotationType).annotations
  }

  /** An annotation whose type is meta-annotated `@Qualifier`. */
  predicate IsQualifier(ct: ClassTable, q: Annotation) {
    exists k | 0 <= k < |MetaAnnotations(ct, q)| :: IsQualifierMeta(MetaAnnotations(ct, q)[k])
  }

  function Repeat<T>(x: T, n: nat): (r: seq<T>)
    ensures |r| == n && forall k | 0 <= k < n :: r[k] == x
  {
    if n == 0 then [] else Repeat(x, n - 1) + [x]
  }

  /**
   * The list the nested loops of `getQualifierAnnotation` collect: each declared annotation,
   * once for every `@Qualifier` among the annotations of its type.
   */
  function Qualifiers(ct: ClassTable, annotations: seq<Annotation>): seq<Annotation> {
    if |annotations| == 0 then []
    else
      var q := annotations[|annotations| - 1];
      Qualifiers(ct, annotations[..|annotations| - 1]) + Repeat(q, |Filter(MetaAnnotations(ct, q), IsQualifierMeta)|)
  }

  /** The switch of `getQualifierAnnotation` on the number of qualifiers collected. */
  function SelectQualifier(qualifiers: seq<Annotation>): Result<Option<Annotation>> {
    if |qualifiers| == 0 then Success(None)
    else if |qualifiers| == 1 then Success(Some(qualifiers[0]))
    else Failure(MoreThanOneQualifier)
  }

  /** `getQualifierAnnotation(element)`, over the element's declared annotations. */
  method GetQualifierAnnotation(ct: ClassTable, annotations: seq<Annotation>) returns (r: Result<Option<Annotation>>)
    ensures r == SelectQualifier(Qualifiers(ct, annotations))
  {
    var qualifiers := [];
    for i := 0 to |annotations|
      invariant qualifiers == Qualifiers(ct, annotations[..i])
    {
      var q := annotations[i];
      var metas := MetaAnnotations(ct, q);
      ghost var before := qualifiers;
      for j := 0 to |metas|
        invariant qualifiers == before + Repeat(q, |Filter(metas[..j], IsQualifierMeta)|)
      {
        FilterSnoc(metas[..j], metas[j], IsQualifierMeta);
        assert metas[..j + 1] == metas[..j] + [metas[j]];
        if IsQualifierMeta(metas[j]) {
          qualifiers := qualifiers + [q];
        }
      }
      assert metas[..|metas|] == metas;
      assert annotations[..i + 1][..i] == annotations[..i];
    }
    assert annotations[..|annotations|] == annotations;
    if |qualifiers| == 0 {
      r := Success(None);
    } else if |qualifiers| == 1 {
      r := Success(Some(qualifiers[0]));
    } else {
      r := Failure(MoreThanOneQualifier);
    }
  }

  /** An annotation is collected at least once exactly when its type is a qualifier. */
  lemma QualifierRepeat(ct: ClassTable, q: Annotation)
    ensures |Filter(MetaAnnotations(ct, q), IsQualifierMeta)| > 0 <==> IsQualifier(ct, q)
  {
    FilterEmpty(MetaAnnotations(ct, q), IsQualifierMeta);
  }

  /** What is collected are qualifier annotations of the element. */
  lemma {:induction false} QualifiersCollected(ct: ClassTable, annotations: seq<Annotation>)
    ensures forall x | x in Qualifiers(ct, annotations) :: x in annotations && IsQualifier(ct, x)
  {
    if |annotations| > 0 {
      var init, q := annotations[..|annotations| - 1], annotations[|annotations| - 1];
      QualifiersCollected(ct, init);
      QualifierRepeat(ct, q);
      assert annotations == init + [q];
    }
  }

  /** Nothing is collected exactly when no declared annotation is a qualifier. */
  lemma {:induction false} QualifiersNone(ct: ClassTable, annotations: seq<Annotation>)
    ensures |Qualifiers(ct, annotations)| == 0 <==> forall k | 0 <= k < |annotations| :: !IsQualifier(ct, annotations[k])
  {
    if |annotations| > 0 {
      var init, q := annotations[..|annotations| - 1], annotations[|annotations| - 1];
      QualifiersNone(ct, init);
      QualifierRepeat(ct, q);
      assert forall k | 0 <= k < |init| :: init[k] == annotations[k];
    }
  }

  /** A qualifier annotation is collected once, since its type carries `@Qualifier` once. */
  lemma QualifierOnce(ct: ClassTable, q: Annotation)
    requires QualifierNotRepeated(ct) && IsQualifier(ct, q)
    ensures |Filter(MetaAnnotations(ct, q), IsQualifierMeta)| == 1
  {
    QualifierRepeat(ct, q);
    FilterAtMostOne(MetaAnnotations(ct, q), IsQualifierMeta);
  }

  /** When exactly one declared annotation is a qualifier, it alone is collected. */
  lemma {:induction false} QualifiersOne(ct: ClassTable, annotations: seq<Annotation>, i: nat)
    requires QualifierNotRepeated(ct)
    requires i < |annotations| && IsQualifier(ct, annotations[i])
    requires forall k | 0 <= k < |annotations| && k != i :: !IsQualifier(ct, annotations[k])
    ensures Qualifiers(ct, annotations) == [annotations[i]]
  {
    var init, q := annotations[..|annotations| - 1], annotations[|annotations| - 1];
    assert forall k | 0 <= k < |init| :: init[k] == annotations[k];
    if i == |annotations| - 1 {
      QualifiersNone(ct, init);
      QualifierOnce(ct, q);
    } else {
      QualifiersOne(ct, init, i);
      QualifierRepeat(ct, q);
    }
  }

  /** Two qualifier annotations are collected at least twice. */
  lemma {:induction false} QualifiersTwo(ct: ClassTable, annotations: seq<Annotation>, i: nat, j: nat)
    requires i < j < |annotations| && IsQualifier(ct, annotations[i]) && IsQualifier(ct, annotations[j])
    ensures |Qualifiers(ct, annotations)| >= 2
  {
    var init, q := annotations[..|annotations| - 1], annotations[|annotations| - 1];
    QualifierRepeat(ct, q);
    assert init[i] == annotations[i];
    if j < |init| {
      assert init[j] == annotations[j];
      QualifiersTwo(ct, init, i, j);
    } else {
      QualifiersNone(ct, init);
    }
  }

  /**
   * `getQualifierAnnotation` gives null when no declared annotation is a qualifier, the
   * qualifier when exactly one is declared (`@Qualifier` being carried at most once by an
   * annotation type, as Java ensures), and throws when two are declared.
   */
  lemma QualifierCharacterised(ct: ClassTable, annotations: seq<Annotation>)
    ensures var r := SelectQualifier(Qualifiers(ct, annotations));
            && (r == Success(None) <==> forall k | 0 <= k < |annotations| :: !IsQualifier(ct, annotations[k]))
            && (r.Success? && r.value.Some? ==> r.value.value in annotations && IsQualifier(ct, r.value.value))
            && (QualifierNotRepeated(ct) ==>
                  forall i | 0 <= i < |annotations| && IsQualifier(ct, annotations[i])
                             && (forall k | 0 <= k < |annotations| && k != i :: !IsQualifier(ct, annotations[k]))
                    :: r == Success(Some(annotations[i])))
            && ((exists i, j | 0 <= i < j < |annotations| :: IsQualifier(ct, annotations[i]) && IsQualifier(ct, annotations[j]))
                  ==> r == Failure(MoreThanOneQualifier))
  {
    QualifiersCollected(ct, annotations);
    QualifiersNone(ct, annotations);
    if QualifierNotRepeated(ct) {
      forall i | 0 <= i < |annotations| && IsQualifier(ct, annotations[i])
                 && (forall k | 0 <= k < |annotations| && k != i :: !IsQualifier(ct, annotations[k]))
      {
        QualifiersOne(ct, annotations, i);
      }
    }
    if exists i, j | 0 <= i < j < |annotations| :: IsQualifier(ct, annotations[i]) && IsQualifier(ct, annotations[j]) {
      var i, j :| 0 <= i < j < |annotations| && IsQualifier(ct, annotations[i]) && IsQualifier(ct, annotations[j]);
      QualifiersTwo(ct, annotations, i, j);
    }
  }
}
