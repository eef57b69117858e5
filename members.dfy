/**
 * The member pipeline of the `InstanceProvider` constructor: which fields and methods of a
 * class and of its superclasses are injected and in which order, and which constructor
 * builds the instance; and `compareMembers`, the comparator `AbstractInjector` sorts the
 * static members with.
 */
module Members {
  import opened Results
  import opened Reflect
  import opened Hierarchy
  import opened TypeUtils

  /** A field or a method to inject: what a `FieldInjector` or a `MethodInjector` is built on. */
  datatype Member = FieldMember(fieldInfo: FieldInfo) | MethodMember(methodInfo: MethodInfo)
  {
    /** `getDeclaringClass` of the injector. */
    function Declaring(): ClassName {
      if FieldMember? then fieldInfo.declaring else methodInfo.declaring
    }

    predicate IsStatic() {
      if FieldMember? then fieldInfo.mods.isStatic else methodInfo.mods.isStatic
    }
  }

  predicate IsStaticMember(m: Member) {
    m.IsStatic()
  }

  predicate IsInstanceMember(m: Member) {
    !m.IsStatic()
  }

  // ---- removeOverridden

  /** Some method of `included` overrides `m`. */
  predicate OverriddenBy(ct: ClassTable, m: MethodInfo, included: seq<MethodInfo>)
    requires Valid(ct)
  {
    exists k | 0 <= k < |included| :: IsOverride(ct, m, included[k])
  }

  lemma OverriddenByAppend(ct: ClassTable, m: MethodInfo, included: seq<MethodInfo>, more: seq<MethodInfo>)
    requires Valid(ct)
    requires OverriddenBy(ct, m, included)
    ensures OverriddenBy(ct, m, included + more)
  {
    var k :| 0 <= k < |included| && IsOverride(ct, m, included[k]);
    assert (included + more)[k] == included[k];
  }

  /** The inner loop of `removeOverridenSub`, which stops at the first overriding method. */
  method IsOverridden(ct: ClassTable, m: MethodInfo, included: seq<MethodInfo>) returns (overridden: bool)
    requires Valid(ct)
    ensures overridden == OverriddenBy(ct, m, included)
  {
    overridden := false;
    for k := 0 to |included|
      invariant !overridden ==> forall j | 0 <= j < k :: !IsOverride(ct, m, included[j])
      invariant overridden ==> OverriddenBy(ct, m, included)
    {
      if IsOverride(ct, m, included[k]) {
        overridden := true;
        break;
      }
    }
  }

  /**
   * `removeOverridenSub` over the methods `ms` of one class: each method that no included
   * method overrides is kept and joins `included`; the result is the new `included` and the
   * methods kept.
   */
  function SubScan(ct: ClassTable, included: seq<MethodInfo>, ms: seq<MethodInfo>): (seq<MethodInfo>, seq<MethodInfo>)
    requires Valid(ct)
  {
    if |ms| == 0 then (included, [])
    else
      var before := SubScan(ct, included, ms[..|ms| - 1]);
      var m := ms[|ms| - 1];
      if OverriddenBy(ct, m, before.0) then before else (before.0 + [m], before.1 + [m])
  }

  method RemoveOverriddenSub(ct: ClassTable, included: seq<MethodInfo>, subList: seq<MethodInfo>)
    returns (nowIncluded: seq<MethodInfo>, kept: seq<MethodInfo>)
    requires Valid(ct)
    ensures (nowIncluded, kept) == SubScan(ct, included, subList)
  {
    nowIncluded, kept := included, [];
    for k := 0 to |subList|
      invariant (nowIncluded, kept) == SubScan(ct, included, subList[..k])
    {
      var m := subList[k];
      assert subList[..k + 1][..k] == subList[..k];
      var overridden := IsOverridden(ct, m, nowIncluded);
      if !overridden {
        nowIncluded := nowIncluded + [m];
        kept := kept + [m];
      }
    }
    assert subList[..|subList|] == subList;
  }

  /**
   * A kept method is one of `ms` that no method included beforehand overrides; a dropped
   * method is overridden by a method included before it, and everything kept is included.
   */
  lemma {:induction false} SubScanCharacterised(ct: ClassTable, included: seq<MethodInfo>, ms: seq<MethodInfo>)
    requires Valid(ct)
    ensures SubScan(ct, included, ms).0 == included + SubScan(ct, included, ms).1
    ensures forall x | x in SubScan(ct, included, ms).1 :: x in ms && !OverriddenBy(ct, x, included)
    ensures forall x | x in ms && x !in SubScan(ct, included, ms).1 :: OverriddenBy(ct, x, SubScan(ct, included, ms).0)
  {
    if |ms| > 0 {
      var init, m := ms[..|ms| - 1], ms[|ms| - 1];
      SubScanCharacterised(ct, included, init);
      var before := SubScan(ct, included, init);
      assert ms == init + [m];
      if !OverriddenBy(ct, m, before.0) {
        if OverriddenBy(ct, m, included) {
          OverriddenByAppend(ct, m, included, before.1);
        }
        forall x | x in ms && x !in before.1 + [m]
          ensures OverriddenBy(ct, x, before.0 + [m])
        {
          OverriddenByAppend(ct, x, before.0, [m]);
        }
      }
    }
  }

  /**
   * `removeOverridden` once the classes from `i` to the most derived are done, most derived
   * first: the included list, and the method lists with the overridden methods removed.
   */
  function RemoveFrom(ct: ClassTable, temp: seq<seq<MethodInfo>>, i: nat): (r: (seq<MethodInfo>, seq<seq<MethodInfo>>))
    requires Valid(ct) && i <= |temp|
    ensures |r.1| == |temp|
    ensures forall j | 0 <= j < i :: r.1[j] == temp[j]
    decreases |temp| - i
  {
    if i == |temp| then ([], temp)
    else
      var after := RemoveFrom(ct, temp, i + 1);
      var sub := SubScan(ct, after.0, temp[i]);
      (sub.0, after.1[i := sub.1])
  }

  /** `removeOverridden`: the classes scanned from the most derived to the root. */
  method RemoveOverridden(ct: ClassTable, tempMethods: seq<seq<MethodInfo>>) returns (methods: seq<seq<MethodInfo>>)
    requires Valid(ct)
    ensures methods == RemoveFrom(ct, tempMethods, 0).1
  {
    var included := [];
    methods := tempMethods;
    var i := |tempMethods|;
    while i > 0
      invariant 0 <= i <= |tempMethods|
      invariant (included, methods) == RemoveFrom(ct, tempMethods, i)
    {
      i := i - 1;
      var kept;
      included, kept := RemoveOverriddenSub(ct, included, methods[i]);
      methods := methods[i := kept];
    }
  }

  /**
   * The methods kept in the classes from `j` to the most derived, most derived first: what
   * `included` holds once those classes are done.
   */
  function IncludedFrom(lists: seq<seq<MethodInfo>>, j: nat): seq<MethodInfo>
    decreases |lists| - j
  {
    if j >= |lists| then [] else IncludedFrom(lists, j + 1) + lists[j]
  }

  lemma IncludedFromUpdate(lists: seq<seq<MethodInfo>>, i: nat, kept: seq<MethodInfo>, j: nat)
    requires i < j && i < |lists|
    ensures IncludedFrom(lists[i := kept], j) == IncludedFrom(lists, j)
    decreases |lists| - j
  {
    if j < |lists| {
      IncludedFromUpdate(lists, i, kept, j + 1);
    }
  }

  /** Once the classes from `i` on are done, `included` holds the methods kept in them. */
  lemma {:induction false} RemoveFromIncluded(ct: ClassTable, temp: seq<seq<MethodInfo>>, i: nat)
    requires Valid(ct) && i <= |temp|
    ensures RemoveFrom(ct, temp, i).0 == IncludedFrom(RemoveFrom(ct, temp, i).1, i)
    decreases |temp| - i
  {
    if i < |temp| {
      RemoveFromIncluded(ct, temp, i + 1);
      var after := RemoveFrom(ct, temp, i + 1);
      SubScanCharacterised(ct, after.0, temp[i]);
      IncludedFromUpdate(after.1, i, SubScan(ct, after.0, temp[i]).1, i + 1);
    }
  }

  /**
   * What `removeOverridden` keeps in the class at position `j` of the hierarchy: methods of
   * that class that no method kept in a more derived class overrides.  What it drops is
   * overridden by a method kept in that class or a more derived one, whether or not that
   * method is annotated `@Inject`.
   */
  lemma {:induction false} RemoveFromCharacterised(ct: ClassTable, temp: seq<seq<MethodInfo>>, i: nat)
    requires Valid(ct) && i <= |temp|
    ensures var r := RemoveFrom(ct, temp, i);
            && (forall j, x | i <= j < |temp| && x in r.1[j] ::
                  x in temp[j] && !OverriddenBy(ct, x, IncludedFrom(r.1, j + 1)))
            && (forall j, x | i <= j < |temp| && x in temp[j] && x !in r.1[j] ::
                  OverriddenBy(ct, x, IncludedFrom(r.1, j)))
    decreases |temp| - i
  {
    if i < |temp| {
      RemoveFromCharacterised(ct, temp, i + 1);
      RemoveFromIncluded(ct, temp, i + 1);
      var after := RemoveFrom(ct, temp, i + 1);
      var sub := SubScan(ct, after.0, temp[i]);
      SubScanCharacterised(ct, after.0, temp[i]);
      var lists := after.1[i := sub.1];
      forall j | i < j <= |temp|
        ensures IncludedFrom(lists, j) == IncludedFrom(after.1, j)
      {
        IncludedFromUpdate(after.1, i, sub.1, j);
      }
      assert IncludedFrom(lists, i) == IncludedFrom(lists, i + 1) + sub.1;
    }
  }


  // ---- removeNotInject

  /** The method lists with only the `@Inject` methods left. */
  function InjectOnly(lists: seq<seq<MethodInfo>>): (r: seq<seq<MethodInfo>>)
    ensures |r| == |lists|
  {
    seq(|lists|, j requires 0 <= j < |lists| => Filter(lists[j], IsInjectMethod))
  }

  /** `removeNotInject`: every list filtered, class by class. */
  method RemoveNotInject(tempMethods: seq<seq<MethodInfo>>) returns (methods: seq<seq<MethodInfo>>)
    ensures methods == InjectOnly(tempMethods)
  {
    methods := tempMethods;
    for i := 0 to |tempMethods|
      invariant |methods| == |tempMethods|
      invariant forall j | 0 <= j < i :: methods[j] == Filter(tempMethods[j], IsInjectMethod)
      invariant forall j | i <= j < |tempMethods| :: methods[j] == tempMethods[j]
    {
      var subList := methods[i];
      var kept := [];
      for k := 0 to |subList|
        invariant kept == Filter(subList[..k], IsInjectMethod)
      {
        FilterSnoc(subList[..k], subList[k], IsInjectMethod);
        assert subList[..k + 1] == subList[..k] + [subList[k]];
        if IsInjectMethod(subList[k]) {
          kept := kept + [subList[k]];
        }
      }
      assert subList[..|subList|] == subList;
      methods := methods[i := kept];
    }
  }

  /** After `removeNotInject` every list holds only `@Inject` methods, all from the same place. */
  lemma NotInjectRemoved(lists: seq<seq<MethodInfo>>, j: nat, x: MethodInfo)
    requires j < |lists|
    ensures x in InjectOnly(lists)[j] <==> x in lists[j] && IsInjectMethod(x)
  {
    FilterCount(lists[j], IsInjectMethod, x);
  }

  // ---- addFields / addInjectors

  /** The members one class contributes: its fields first, then its methods. */
  function ClassMembers(fields: seq<FieldInfo>, methods: seq<MethodInfo>): (r: seq<Member>)
    ensures |r| == |fields| + |methods|
  {
    seq(|fields|, k requires 0 <= k < |fields| => FieldMember(fields[k]))
    + seq(|methods|, k requires 0 <= k < |methods| => MethodMember(methods[k]))
  }

  /** The members of the first `n` classes, class after class. */
  function Emitted(fields: seq<seq<FieldInfo>>, methods: seq<seq<MethodInfo>>, n: nat): seq<Member>
    requires n <= |fields| && n <= |methods|
  {
    if n == 0 then [] else Emitted(fields, methods, n - 1) + ClassMembers(fields[n - 1], methods[n - 1])
  }

  /** The `@Inject` fields of each class of the hierarchy, as `parseType` lists them. */
  function HierarchyFields(ct: ClassTable, h: seq<Cls>): (r: seq<seq<FieldInfo>>)
    ensures |r| == |h|
  {
    seq(|h|, i requires 0 <= i < |h| => Filter(DeclaredFields(ct, h[i]), IsInjectField))
  }

  /** The declared methods of each class of the hierarchy, as `parseType` lists them. */
  function HierarchyMethods(ct: ClassTable, h: seq<Cls>): (r: seq<seq<MethodInfo>>)
    ensures |r| == |h|
  {
    seq(|h|, i requires 0 <= i < |h| => DeclaredMethods(ct, h[i]))
  }

  /** The methods per class that survive `removeOverridden`. */
  function Survivors(ct: ClassTable, h: seq<Cls>): (r: seq<seq<MethodInfo>>)
    requires Valid(ct)
    ensures |r| == |h|
  {
    RemoveFrom(ct, HierarchyMethods(ct, h), 0).1
  }

  /** The methods per class that are injected: survivors of both passes. */
  function InjectableMethods(ct: ClassTable, h: seq<Cls>): (r: seq<seq<MethodInfo>>)
    requires Valid(ct)
    ensures |r| == |h|
  {
    InjectOnly(Survivors(ct, h))
  }

  /** Every member the constructor of `InstanceProvider` makes an injector for, in order. */
  function InjectionOrder(ct: ClassTable, c: Cls): seq<Member>
    requires Valid(ct)
  {
    var h := TypeHierarchy(ct, c);
    Emitted(HierarchyFields(ct, h), InjectableMethods(ct, h), |h|)
  }

  lemma ClassMembersHas(fields: seq<FieldInfo>, methods: seq<MethodInfo>, x: Member)
    ensures x in ClassMembers(fields, methods) <==>
            if x.FieldMember? then x.fieldInfo in fields else x.methodInfo in methods
  {
    var r := ClassMembers(fields, methods);
    if x.FieldMember? && x.fieldInfo in fields {
      var k :| 0 <= k < |fields| && fields[k] == x.fieldInfo;
      assert r[k] == x;
    }
    if x.MethodMember? && x.methodInfo in methods {
      var k :| 0 <= k < |methods| && methods[k] == x.methodInfo;
      assert r[|fields| + k] == x;
    }
  }

  lemma {:induction false} EmittedHas(fields: seq<seq<FieldInfo>>, methods: seq<seq<MethodInfo>>, n: nat, x: Member)
    requires n <= |fields| && n <= |methods|
    ensures x in Emitted(fields, methods, n) <==> exists i | 0 <= i < n :: x in ClassMembers(fields[i], methods[i])
  {
    if n > 0 {
      EmittedHas(fields, methods, n - 1, x);
    }
  }

  /** Members of earlier classes come first; within one class, fields come before methods. */
  predicate Before(ct: ClassTable, a: Member, b: Member) {
    || ClsRank(ct, Named(a.Declaring())) < ClsRank(ct, Named(b.Declaring()))
    || (a.Declaring() == b.Declaring() && (a.FieldMember? || b.MethodMember?))
  }

  /** Within one class's members, a field never comes after a method. */
  lemma ClassMembersOrdered(fields: seq<FieldInfo>, methods: seq<MethodInfo>, k1: nat, k2: nat)
    requires k1 < k2 < |fields| + |methods|
    ensures ClassMembers(fields, methods)[k1].FieldMember? || ClassMembers(fields, methods)[k2].MethodMember?
  {
  }

  lemma {:induction false} EmittedOrdered(ct: ClassTable, fields: seq<seq<FieldInfo>>, methods: seq<seq<MethodInfo>>,
                                          n: nat, classes: seq<ClassName>)
    requires n <= |fields| && n <= |methods| && n <= |classes|
    requires forall i, x | 0 <= i < n && x in ClassMembers(fields[i], methods[i]) :: x.Declaring() == classes[i]
    requires forall i, j | 0 <= i < j < n :: ClsRank(ct, Named(classes[i])) < ClsRank(ct, Named(classes[j]))
    ensures forall k1, k2 | 0 <= k1 < k2 < |Emitted(fields, methods, n)| ::
              Before(ct, Emitted(fields, methods, n)[k1], Emitted(fields, methods, n)[k2])
    ensures forall x | x in Emitted(fields, methods, n) :: exists i | 0 <= i < n :: x.Declaring() == classes[i]
  {
    if n > 0 {
      EmittedOrdered(ct, fields, methods, n - 1, classes);
      var prefix := Emitted(fields, methods, n - 1);
      assert forall k1, k2 | 0 <= k1 < k2 < |prefix| :: Before(ct, prefix[k1], prefix[k2]);
      var last := ClassMembers(fields[n - 1], methods[n - 1]);
      var order := prefix + last;
      forall k1, k2 | 0 <= k1 < k2 < |order|
        ensures Before(ct, order[k1], order[k2])
      {
        if k2 >= |prefix| {
          assert order[k2] == last[k2 - |prefix|];
          assert order[k2] in last;
          if k1 < |prefix| {
            assert order[k1] == prefix[k1];
            assert order[k1] in prefix;
            var i :| 0 <= i < n - 1 && order[k1].Declaring() == classes[i];
            assert order[k2].Declaring() == classes[n - 1];
            assert ClsRank(ct, Named(classes[i])) < ClsRank(ct, Named(classes[n - 1]));
          } else {
            assert order[k1] == last[k1 - |prefix|];
            assert order[k1] in last;
            ClassMembersOrdered(fields[n - 1], methods[n - 1], k1 - |prefix|, k2 - |prefix|);
            assert order[k1].Declaring() == classes[n - 1] == order[k2].Declaring();
          }
        } else {
          assert order[k1] == prefix[k1] && order[k2] == prefix[k2];
          assert Before(ct, prefix[k1], prefix[k2]);
        }
      }
      forall x | x in order
        ensures exists i | 0 <= i < n :: x.Declaring() == classes[i]
      {
        if x in last {
          assert x.Declaring() == classes[n - 1];
        }
      }
    }
  }

  /** A hierarchy with more than one class holds no array class. */
  lemma TypeHierarchyNamed(ct: ClassTable, c: Cls, i: nat)
    requires Valid(ct)
    requires 1 < |TypeHierarchy(ct, c)| && i < |TypeHierarchy(ct, c)|
    ensures TypeHierarchy(ct, c)[i].Named?
  {
    var h := TypeHierarchy(ct, c);
    TypeHierarchyChain(ct, c);
    if i < |h| - 1 {
      assert Superclass(ct, h[i + 1]) == Some(h[i]);
    }
  }

  /** The class names along a hierarchy; an array class, alone in its hierarchy, declares nothing. */
  function HierarchyNames(h: seq<Cls>): (r: seq<ClassName>)
    ensures |r| == |h|
  {
    seq(|h|, i requires 0 <= i < |h| => if h[i].Named? then h[i].name else ObjectClass)
  }

  /** A member the container takes from the class at position `i` is declared by that class. */
  lemma HierarchyMemberDeclared(ct: ClassTable, c: Cls, i: nat, x: Member)
    requires Valid(ct) && MembersDeclared(ct)
    requires i < |TypeHierarchy(ct, c)|
    requires var h := TypeHierarchy(ct, c);
             x in ClassMembers(HierarchyFields(ct, h)[i], InjectableMethods(ct, h)[i])
    ensures var h := TypeHierarchy(ct, c);
            x.Declaring() == HierarchyNames(h)[i] && Named(x.Declaring()) == h[i]
  {
    var h := TypeHierarchy(ct, c);
    var survivors := Survivors(ct, h);
    ClassMembersHas(HierarchyFields(ct, h)[i], InjectableMethods(ct, h)[i], x);
    if x.FieldMember? {
      FilterSubset(DeclaredFields(ct, h[i]), IsInjectField, x.fieldInfo);
      assert x.fieldInfo in DeclaredFields(ct, h[i]);
    } else {
      NotInjectRemoved(survivors, i, x.methodInfo);
      RemoveFromCharacterised(ct, HierarchyMethods(ct, h), 0);
      assert x.methodInfo in DeclaredMethods(ct, h[i]);
    }
    DeclaredByClass(ct, h[i], x);
  }

  /** Members of a class of the table are declared by that class. */
  lemma DeclaredByClass(ct: ClassTable, c: Cls, x: Member)
    requires MembersDeclared(ct)
    requires if x.FieldMember? then x.fieldInfo in DeclaredFields(ct, c) else x.methodInfo in DeclaredMethods(ct, c)
    ensures c == Named(x.Declaring())
  {
  }

  /** Ranks grow along the class names of a hierarchy. */
  lemma HierarchyNamesRanked(ct: ClassTable, c: Cls, i: nat, j: nat)
    requires Valid(ct)
    requires i < j < |TypeHierarchy(ct, c)|
    ensures var names := HierarchyNames(TypeHierarchy(ct, c));
            ClsRank(ct, Named(names[i])) < ClsRank(ct, Named(names[j]))
  {
    TypeHierarchyRanks(ct, c, i, j);
    TypeHierarchyNamed(ct, c, i);
    TypeHierarchyNamed(ct, c, j);
  }

  /**
   * The injectors are emitted from the root ancestor to `c`, class by class, and within one
   * class the fields come before the methods; every member comes from a class of the
   * hierarchy.
   */
  lemma InjectionOrderOrdered(ct: ClassTable, c: Cls)
    requires Valid(ct) && MembersDeclared(ct)
    ensures forall k1, k2 | 0 <= k1 < k2 < |InjectionOrder(ct, c)| ::
              Before(ct, InjectionOrder(ct, c)[k1], InjectionOrder(ct, c)[k2])
    ensures forall x | x in InjectionOrder(ct, c) :: Named(x.Declaring()) in TypeHierarchy(ct, c)
  {
    var h := TypeHierarchy(ct, c);
    var fields, methods := HierarchyFields(ct, h), InjectableMethods(ct, h);
    var classes := HierarchyNames(h);
    forall i, x | 0 <= i < |h| && x in ClassMembers(fields[i], methods[i])
      ensures x.Declaring() == classes[i]
    {
      HierarchyMemberDeclared(ct, c, i, x);
    }
    forall i, j | 0 <= i < j < |h|
      ensures ClsRank(ct, Named(classes[i])) < ClsRank(ct, Named(classes[j]))
    {
      HierarchyNamesRanked(ct, c, i, j);
    }
    EmittedOrdered(ct, fields, methods, |h|, classes);
    forall x | x in InjectionOrder(ct, c)
      ensures Named(x.Declaring()) in h
    {
      EmittedHas(fields, methods, |h|, x);
      var i :| 0 <= i < |h| && x in ClassMembers(fields[i], methods[i]);
      HierarchyMemberDeclared(ct, c, i, x);
    }
  }

  /**
   * An `@Inject` field of a class of the hierarchy is injected, and only those are; a method
   * is injected exactly when it carries `@Inject` and survives the removal of overridden
   * methods.
   */
  lemma InjectionOrderMembers(ct: ClassTable, c: Cls, x: Member)
    requires Valid(ct)
    ensures x in InjectionOrder(ct, c) <==> ContributedBy(ct, TypeHierarchy(ct, c), x)
  {
    var h := TypeHierarchy(ct, c);
    var fields, methods := HierarchyFields(ct, h), InjectableMethods(ct, h);
    EmittedHas(fields, methods, |h|, x);
    if x in InjectionOrder(ct, c) {
      var i :| 0 <= i < |h| && x in ClassMembers(fields[i], methods[i]);
      ClassContribution(ct, h, i, x);
    }
    if ContributedBy(ct, h, x) {
      var i :| 0 <= i < |h| && ContributedAt(ct, h, i, x);
      ClassContribution(ct, h, i, x);
    }
  }

  /** Class `i` of `h` contributes `x`: an `@Inject` field it declares, or an `@Inject` survivor. */
  predicate ContributedAt(ct: ClassTable, h: seq<Cls>, i: nat, x: Member)
    requires Valid(ct) && i < |h|
  {
    if x.FieldMember? then x.fieldInfo in DeclaredFields(ct, h[i]) && IsInjectField(x.fieldInfo)
    else x.methodInfo in Survivors(ct, h)[i] && IsInjectMethod(x.methodInfo)
  }

  predicate ContributedBy(ct: ClassTable, h: seq<Cls>, x: Member)
    requires Valid(ct)
  {
    exists i | 0 <= i < |h| :: ContributedAt(ct, h, i, x)
  }

  lemma ClassContribution(ct: ClassTable, h: seq<Cls>, i: nat, x: Member)
    requires Valid(ct) && i < |h|
    ensures x in ClassMembers(HierarchyFields(ct, h)[i], InjectableMethods(ct, h)[i]) <==> ContributedAt(ct, h, i, x)
  {
    ClassMembersHas(HierarchyFields(ct, h)[i], InjectableMethods(ct, h)[i], x);
    if x.FieldMember? {
      FilterCount(DeclaredFields(ct, h[i]), IsInjectField, x.fieldInfo);
    } else {
      NotInjectRemoved(Survivors(ct, h), i, x.methodInfo);
    }
  }

  /**
   * A method survives in the class at position `j` exactly when that class declares it and
   * no method kept in a more derived class overrides it; a declared method that does not
   * survive is overridden by a kept method of that class or a more derived one.
   */
  lemma SurvivorsCharacterised(ct: ClassTable, c: Cls, j: nat, m: MethodInfo)
    requires Valid(ct)
    requires j < |TypeHierarchy(ct, c)|
    ensures var h := TypeHierarchy(ct, c);
            var s := Survivors(ct, h);
            && (m in s[j] ==> m in DeclaredMethods(ct, h[j]) && !OverriddenBy(ct, m, IncludedFrom(s, j + 1)))
            && (m in DeclaredMethods(ct, h[j]) && m !in s[j] ==> OverriddenBy(ct, m, IncludedFrom(s, j)))
  {
    var h := TypeHierarchy(ct, c);
    var temp := HierarchyMethods(ct, h);
    RemoveFromCharacterised(ct, temp, 0);
    assert Survivors(ct, h) == RemoveFrom(ct, temp, 0).1 && temp[j] == DeclaredMethods(ct, h[j]);
  }

  /**
   * Every injected member goes to exactly one of the two lists: the static list for a static
   * member, the instance list otherwise.
   */
  lemma StaticPartition(order: seq<Member>)
    ensures multiset(Filter(order, IsStaticMember)) + multiset(Filter(order, IsInstanceMember)) == multiset(order)
    ensures forall x | x in Filter(order, IsStaticMember) :: x.IsStatic()
    ensures forall x | x in Filter(order, IsInstanceMember) :: !x.IsStatic()
  {
    forall x
      ensures (multiset(Filter(order, IsStaticMember)) + multiset(Filter(order, IsInstanceMember)))[x] == multiset(order)[x]
    {
      FilterCount(order, IsStaticMember, x);
      FilterCount(order, IsInstanceMember, x);
    }
    forall x | x in Filter(order, IsStaticMember)
      ensures x.IsStatic()
    {
      FilterSubset(order, IsStaticMember, x);
    }
    forall x | x in Filter(order, IsInstanceMember)
      ensures !x.IsStatic()
    {
      FilterSubset(order, IsInstanceMember, x);
    }
  }

  // ---- initConstructor

  predicate TakesNoArguments(c: CtorInfo) {
    |c.params| == 0
  }

  /** `getDeclaredConstructor()`: the declared constructor without parameters, if any. */
  function NoArgConstructor(ct: ClassTable, c: Cls): Result<CtorInfo> {
    var candidates := Filter(DeclaredConstructors(ct, c), TakesNoArguments);
    if |candidates| == 0 then Failure(NoUsableConstructor) else Success(candidates[0])
  }

  /**
   * `initConstructor`: the single `@Inject` constructor, or else the declared no-argument
   * one; `InjectException` when there are several of the first or none of either.
   */
  function ConstructorFor(ct: ClassTable, c: Cls): Result<CtorInfo> {
    var injectable :- SelectInjectConstructor(Filter(DeclaredConstructors(ct, c), IsInjectConstructor));
    if injectable.Some? then Success(injectable.value) else NoArgConstructor(ct, c)
  }

  /**
   * The constructor chosen is declared by the class, and it is the only `@Inject` one or,
   * without any, one taking no arguments; the choice fails only with `InjectException`.
   */
  lemma ConstructorForCharacterised(ct: ClassTable, c: Cls)
    ensures var ctors := DeclaredConstructors(ct, c);
            var r := ConstructorFor(ct, c);
            var noInject := forall k | 0 <= k < |ctors| :: !IsInjectConstructor(ctors[k]);
            && (r.Success? ==> r.value in ctors)
            && (r.Success? && !noInject ==>
                  IsInjectConstructor(r.value)
                  && forall k | 0 <= k < |ctors| && IsInjectConstructor(ctors[k]) :: ctors[k] == r.value)
            && (r.Success? && noInject ==> |r.value.params| == 0)
            && (noInject && (forall k | 0 <= k < |ctors| :: |ctors[k].params| > 0) ==> r == Failure(NoUsableConstructor))
            && ((exists i, j | 0 <= i < j < |ctors| :: IsInjectConstructor(ctors[i]) && IsInjectConstructor(ctors[j]))
                  ==> r == Failure(MoreThanOneInjectConstructor))
            && (r.Failure? ==> r.error.IsInjectException())
  {
    var ctors := DeclaredConstructors(ct, c);
    InjectConstructorCharacterised(ctors);
    FilterEmpty(ctors, TakesNoArguments);
    var candidates := Filter(ctors, TakesNoArguments);
    if |candidates| > 0 {
      FilterSubset(ctors, TakesNoArguments, candidates[0]);
    }
  }

  // ---- The result of the InstanceProvider constructor

  /** What an `InstanceProvider` is built from: its constructor, its injectors and its hooks. */
  datatype Plan = Plan(ctor: CtorInfo, staticMembers: seq<Member>, members: seq<Member>,
                       postConstruct: Option<MethodInfo>, preDestroy: Option<MethodInfo>)

  /**
   * The constructor of `InstanceProvider` on the raw class `c`: the constructor first (it may
   * throw), then the injectors of the hierarchy split into static and instance ones, then the
   * hooks of `c` itself, post-construct before pre-destroy.
   */
  function PlanOf(ct: ClassTable, c: Cls): Result<Plan>
    requires Valid(ct)
  {
    var ctor :- ConstructorFor(ct, c);
    var order := InjectionOrder(ct, c);
    var post :- HookScan(DeclaredMethods(ct, c), PostConstructAnnotation);
    var pre :- HookScan(DeclaredMethods(ct, c), PreDestroyAnnotation);
    Success(Plan(ctor, Filter(order, IsStaticMember), Filter(order, IsInstanceMember), post, pre))
  }

  /**
   * A plan keeps every injected member exactly once, static members apart, each list still
   * ordered root first and fields first; its hooks are the unique annotated, argument-free
   * methods `c` declares; and building one fails only with `InjectException`.
   */
  lemma PlanOfCharacterised(ct: ClassTable, c: Cls)
    requires Valid(ct) && MembersDeclared(ct)
    ensures var r := PlanOf(ct, c);
            && (r.Failure? ==> r.error.IsInjectException())
            && (r.Success? ==>
                  && r.value.ctor in DeclaredConstructors(ct, c)
                  && multiset(r.value.staticMembers) + multiset(r.value.members) == multiset(InjectionOrder(ct, c))
                  && (forall x | x in r.value.staticMembers :: x.IsStatic())
                  && (forall x | x in r.value.members :: !x.IsStatic())
                  && (forall k1, k2 | 0 <= k1 < k2 < |r.value.members| ::
                        Before(ct, r.value.members[k1], r.value.members[k2]))
                  && (forall k1, k2 | 0 <= k1 < k2 < |r.value.staticMembers| ::
                        Before(ct, r.value.staticMembers[k1], r.value.staticMembers[k2]))
                  && (r.value.postConstruct.Some? ==>
                        var m := r.value.postConstruct.value;
                        m in DeclaredMethods(ct, c) && Annotated(m.annotations, PostConstructAnnotation) && |m.params| == 0)
                  && (r.value.preDestroy.Some? ==>
                        var m := r.value.preDestroy.value;
                        m in DeclaredMethods(ct, c) && Annotated(m.annotations, PreDestroyAnnotation) && |m.params| == 0))
  {
    ConstructorForCharacterised(ct, c);
    var order := InjectionOrder(ct, c);
    StaticPartition(order);
    InjectionOrderOrdered(ct, c);
    var before := (a: Member, b: Member) => Before(ct, a, b);
    assert forall k1, k2 | 0 <= k1 < k2 < |order| :: before(order[k1], order[k2]);
    FilterOrdered(order, IsStaticMember, before);
    FilterOrdered(order, IsInstanceMember, before);
    HookFound(DeclaredMethods(ct, c), PostConstructAnnotation);
    HookFound(DeclaredMethods(ct, c), PreDestroyAnnotation);
  }

  /** A found hook is an annotated, argument-free method of the list; a failed lookup throws. */
  lemma HookFound(ms: seq<MethodInfo>, a: ClassName)
    ensures HookScan(ms, a).Success? && HookScan(ms, a).value.Some? ==>
              var m := HookScan(ms, a).value.value;
              m in ms && Annotated(m.annotations, a) && |m.params| == 0
    ensures HookScan(ms, a).Failure? ==> HookScan(ms, a).error.IsInjectException()
  {
    var hooks := Filter(ms, AnnotatedWith(a));
    HookScanCharacterised(ms, a);
    if |hooks| > 0 {
      FilterSubset(ms, AnnotatedWith(a), hooks[0]);
      assert AnnotatedWith(a)(hooks[0]);
    }
  }

  // ---- compareMembers

  /**
   * `compareMembers(a, b)` as written: `bClass` is read from `a` as well, so `distinctClass`
   * is false and the class tests never apply.
   */
  function CompareMembers(ct: ClassTable, a: Member, b: Member): int
    requires Valid(ct)
  {
    var aClass := Named(a.Declaring());
    var bClass := Named(a.Declaring());
    var distinctClass := aClass != bClass;
    if distinctClass && IsAssignableFrom(ct, Named(a.Declaring()), Named(b.Declaring())) then 1
    else if distinctClass && IsAssignableFrom(ct, Named(b.Declaring()), Named(a.Declaring())) then -1
    else if a.FieldMember? && !b.FieldMember? then 1
    else if !b.FieldMember? && a.FieldMember? then -1
    else 0
  }

  /**
   * The comparator only ever answers 1, for a field against a method, and 0 otherwise: it
   * never orders by class and never answers -1.
   */
  lemma CompareMembersAsWritten(ct: ClassTable, a: Member, b: Member)
    requires Valid(ct)
    ensures CompareMembers(ct, a, b) == if a.FieldMember? && b.MethodMember? then 1 else 0
    ensures CompareMembers(ct, a, b) >= 0
  {
  }

  /** No member compares below its predecessor: the list is one ascending run. */
  predicate AscendingRun(ct: ClassTable, members: seq<Member>)
    requires Valid(ct)
  {
    forall k | 1 <= k < |members| :: CompareMembers(ct, members[k], members[k - 1]) >= 0
  }

  /**
   * The run detection `List.sort` starts with (`countRunAndMakeAscending`): a list opening
   * with a descending pair would have its strictly descending run extended and reversed, any
   * other list has its longest prefix in which no element compares below its predecessor
   * counted.  `compareMembers` never answers -1 (`CompareMembersAsWritten`), so the
   * descending branch is unreachable, the run is the whole list, and the sort leaves the
   * list as it is.
   */
  method CountAscendingRun(ct: ClassTable, members: seq<Member>) returns (runHi: nat)
    requires Valid(ct)
    requires |members| >= 2
    ensures runHi == |members|
    ensures AscendingRun(ct, members)
  {
    CompareMembersAsWritten(ct, members[1], members[0]);
    if CompareMembers(ct, members[1], members[0]) < 0 {
      assert false;
    } else {
      runHi := 2;
      while runHi < |members| && CompareMembers(ct, members[runHi], members[runHi - 1]) >= 0
        invariant 2 <= runHi <= |members|
        invariant forall k | 1 <= k < runHi :: CompareMembers(ct, members[k], members[k - 1]) >= 0
      {
        runHi := runHi + 1;
      }
      if runHi < |members| {
        CompareMembersAsWritten(ct, members[runHi], members[runHi - 1]);
      }
    }
  }
}
