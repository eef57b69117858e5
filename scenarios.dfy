/**
 * A small class table, `Box<E>` with a field of type `E` and `IntBox extends Box<Integer>`,
 * on which the resolution of a field type is worked out.
 */
module Scenarios {
  import opened Results
  import opened Reflect
  import opened Types
  import opened Hierarchy
  import opened Resolution

  const IntegerClass: ClassName := "java.lang.Integer"
  const BoxClass: ClassName := "example.Box"
  const IntBoxClass: ClassName := "example.IntBox"

  function PlainClass(pkg: string, superclass: ClassName, generic: Type, fields: seq<FieldInfo>,
                      typeParameters: seq<string>, rank: nat): ClassInfo {
    ClassInfo(pkg, Public, false, false, false, None, Some(superclass), Some(generic), [], [],
              typeParameters, [], fields, [], [], rank)
  }

  function RootInterfaceInfo(): ClassInfo {
    ClassInfo("java.lang", Public, true, true, false, None, None, None, [], [], [], [], [], [], [], 1)
  }

  /** `Box.value`, declared with the type variable `E` of `Box`. */
  function BoxValue(): FieldInfo {
    FieldInfo(BoxClass, "value", Mods(PackagePrivate, false), [Annotation(InjectAnnotation, [])],
              Named(ObjectClass), TVar(ClassDecl(BoxClass), "E"))
  }

  function BoxTable(): ClassTable {
    map[
      ObjectClass := ClassInfo("java.lang", Public, false, false, false, None, None, None,
                               [], [], [], [], [], [], [], 0),
      CloneableClass := RootInterfaceInfo(),
      SerializableClass := RootInterfaceInfo(),
      IntegerClass := PlainClass("java.lang", ObjectClass, ObjectType, [], [], 1),
      BoxClass := PlainClass("example", ObjectClass, ObjectType, [BoxValue()], ["E"], 1),
      IntBoxClass := PlainClass("example", BoxClass, Param(None, BoxClass, [Raw(Named(IntegerClass))], false),
                                [], [], 2)
    ]
  }

  lemma ObjectOk() ensures ClassOk(BoxTable(), ObjectClass) {}
  lemma CloneableOk() ensures ClassOk(BoxTable(), CloneableClass) {}
  lemma SerializableOk() ensures ClassOk(BoxTable(), SerializableClass) {}
  lemma IntegerOk() ensures ClassOk(BoxTable(), IntegerClass) {}
  lemma BoxOk() ensures ClassOk(BoxTable(), BoxClass) {}
  lemma IntBoxOk() ensures ClassOk(BoxTable(), IntBoxClass) {}

  lemma BoxTableValid()
    ensures Valid(BoxTable())
  {
    ObjectOk(); CloneableOk(); SerializableOk(); IntegerOk(); BoxOk(); IntBoxOk();
    assert BoxTable().Keys == {ObjectClass, CloneableClass, SerializableClass, IntegerClass, BoxClass, IntBoxClass};
  }

  /** Every generic supertype of the table erases to the declared supertype. */
  lemma BoxTableAgrees()
    ensures Valid(BoxTable()) && GenericsAgree(BoxTable())
  {
    BoxTableValid();
    assert BoxTable().Keys == {ObjectClass, CloneableClass, SerializableClass, IntegerClass, BoxClass, IntBoxClass};
  }

  /** The descriptor of the raw class `IntBox`. */
  function IntBoxView(): TypeData {
    TypeData(Raw(Named(IntBoxClass)), Named(IntBoxClass), Hash(Raw(Named(IntBoxClass))))
  }

  lemma IntBoxViewIsGot()
    ensures Get(BoxTable(), Raw(Named(IntBoxClass))) == Success(IntBoxView())
  {}

  lemma IntBoxIsBox()
    ensures Valid(BoxTable()) && IsAssignableFrom(BoxTable(), Named(BoxClass), Named(IntBoxClass))
  {
    BoxTableValid();
    assert Named(BoxClass) in DirectSupers(BoxTable(), Named(IntBoxClass));
  }

  /** Walking up from `IntBox`, `Box` is reached through the generic superclass `Box<Integer>`. */
  lemma IntBoxSupertype()
    ensures Valid(BoxTable())
    ensures GenericSupertype(BoxTable(), Raw(Named(IntBoxClass)), Named(IntBoxClass), Named(BoxClass))
            == Success(Param(None, BoxClass, [Raw(Named(IntegerClass))], false))
  {
    BoxTableValid();
    var ct := BoxTable();
    assert !IsInterface(ct, Named(BoxClass)) && !IsInterface(ct, Named(IntBoxClass));
    assert HierarchySupertype(ct, Named(IntBoxClass), Named(BoxClass))
           == Success(Some(Param(None, BoxClass, [Raw(Named(IntegerClass))], false)));
  }

  /** `Box<Integer>` as this library's own parameterized type. */
  function BoxOfInteger(): Type {
    Param(None, BoxClass, [Raw(Named(IntegerClass))], true)
  }

  /**
   * `getSupertype(Box.class)` from `IntBox` is the data of `Box<Integer>`: the generic
   * superclass found on the way up, resolved (it has no variables) and canonicalised.
   */
  lemma IntBoxAsBox()
    ensures Valid(BoxTable())
    ensures GetSupertype(BoxTable(), IntBoxView(), Named(BoxClass), 1)
            == Success(TypeData(BoxOfInteger(), Named(BoxClass), Hash(BoxOfInteger())))
  {
    IntBoxIsBox();
    IntBoxSupertype();
    var ct := BoxTable();
    var view := Param(None, BoxClass, [Raw(Named(IntegerClass))], false);
    ResolveWithoutVariables(ct, IntBoxView(), view, 1);
    assert Canonicalize(ct, view) == Success(BoxOfInteger());
  }

  /** From `IntBox`, the variable `E` of `Box` stands for `Integer`. */
  lemma IntBoxVariable()
    ensures Valid(BoxTable())
    ensures ResolveTypeVariable(BoxTable(), Raw(Named(IntBoxClass)), Named(IntBoxClass), TVar(ClassDecl(BoxClass), "E"))
            == Success(Raw(Named(IntegerClass)))
  {
    IntBoxSupertype();
    assert Info(BoxTable(), BoxClass).typeParameters == ["E"];
  }

  /** One substitution step takes `E` to `Integer`, which is already resolved. */
  lemma IntBoxVariableResolved()
    ensures Valid(BoxTable())
    ensures Resolved(BoxTable(), IntBoxView(), TVar(ClassDecl(BoxClass), "E"), 1) == Success(Raw(Named(IntegerClass)))
  {
    IntBoxVariable();
  }

  /**
   * Seen from `IntBox`, the field `Box.value` has type `Integer`: the variable `E` of `Box`
   * is replaced by the argument of `IntBox`'s generic superclass `Box<Integer>`.
   */
  lemma IntBoxFieldIsInteger()
    ensures Valid(BoxTable())
    ensures Get(BoxTable(), Raw(Named(IntBoxClass))) == Success(IntBoxView())
    ensures GetFieldType(BoxTable(), IntBoxView(), BoxValue(), 1)
            == Success(TypeData(Raw(Named(IntegerClass)), Named(IntegerClass), Hash(Raw(Named(IntegerClass)))))
  {
    IntBoxViewIsGot();
    IntBoxIsBox();
    IntBoxVariableResolved();
  }

  /** The descriptor of the raw class `Box`. */
  function BoxView(): TypeData {
    TypeData(Raw(Named(BoxClass)), Named(BoxClass), Hash(Raw(Named(BoxClass))))
  }

  lemma BoxViewIsGot()
    ensures Get(BoxTable(), Raw(Named(BoxClass))) == Success(BoxView())
  {}

  /** From `Box` itself, `E` is left as it is. */
  lemma BoxVariable()
    ensures Valid(BoxTable())
    ensures ResolveTypeVariable(BoxTable(), Raw(Named(BoxClass)), Named(BoxClass), TVar(ClassDecl(BoxClass), "E"))
            == Success(TVar(ClassDecl(BoxClass), "E"))
  {
    BoxTableValid();
  }

  /** Seen from `Box` itself, `E` stays a variable: the view of `Box` is the raw class. */
  lemma BoxFieldStaysVariable()
    ensures Valid(BoxTable())
    ensures Get(BoxTable(), Raw(Named(BoxClass))) == Success(BoxView())
    ensures GetFieldType(BoxTable(), BoxView(), BoxValue(), 1)
            == Success(TypeData(TVar(ClassDecl(BoxClass), "E"), Named(ObjectClass), Hash(TVar(ClassDecl(BoxClass), "E"))))
  {
    BoxViewIsGot();
    BoxVariable();
    var e := TVar(ClassDecl(BoxClass), "E");
    assert Resolved(BoxTable(), BoxView(), e, 1) == Success(e);
  }
}
