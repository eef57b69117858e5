/**
 * `es.danpintas.tdi.keys.AbstractKey`: a pair of possibly-null components, compared and
 * hashed component-wise, with the concrete key class taking part in equality.
 */
module Keys {
  import opened Results
  import opened Reflect
  import opened Types
  import opened Resolution

  /** The concrete subclasses of `AbstractKey`. */
  datatype KeyClass = BindingKeyClass | ProviderKeyClass | ScopeKeyClass

  /** A key: its concrete class and its two components, `None` standing for null. */
  datatype PairKey<A, B> = PairKey(keyClass: KeyClass, a: Option<A>, b: Option<B>)

  /** Null-safe component equality: null equals only null, otherwise the component's `equals`. */
  function ComponentEquals<T>(x: Option<T>, y: Option<T>, eq: (T, T) -> bool): bool {
    if x.None? then y.None? else y.Some? && eq(x.value, y.value)
  }

  /**
   * `equals(obj)`: the same key, or a non-null key of the same concrete class whose
   * components are pairwise equal.  The identity test is modelled as equality of the
   * key's value.
   */
  function KeyEquals<A(==), B(==)>(k: PairKey<A, B>, obj: Option<PairKey<A, B>>, eqA: (A, A) -> bool, eqB: (B, B) -> bool): bool {
    if obj == Some(k) then true
    else if obj.None? then false
    else if k.keyClass != obj.value.keyClass then false
    else ComponentEquals(k.a, obj.value.a, eqA) && ComponentEquals(k.b, obj.value.b, eqB)
  }

  /** `hashCode`: `31 * (31 * 1 + h(a)) + h(b)`, null hashing to 0, in `int` arithmetic. */
  function KeyHash<A, B>(k: PairKey<A, B>, hashA: A -> HashCode, hashB: B -> HashCode): HashCode {
    var ha := if k.a.Some? then hashA(k.a.value) else 0;
    var hb := if k.b.Some? then hashB(k.b.value) else 0;
    Step(Step(1, ha), hb)
  }

  /** A key equals itself, and never null or a key of another concrete class. */
  lemma KeyEqualsBasics<A, B>(k: PairKey<A, B>, other: PairKey<A, B>, eqA: (A, A) -> bool, eqB: (B, B) -> bool)
    ensures KeyEquals(k, Some(k), eqA, eqB)
    ensures !KeyEquals(k, None, eqA, eqB)
    ensures k.keyClass != other.keyClass ==> !KeyEquals(k, Some(other), eqA, eqB)
  {
  }

  /**
   * With reflexive component equalities, two keys of one class are equal exactly when
   * both components are, null being equal only to null.
   */
  lemma KeyEqualsComponents<A, B>(k: PairKey<A, B>, other: PairKey<A, B>, eqA: (A, A) -> bool, eqB: (B, B) -> bool)
    requires forall x :: eqA(x, x)
    requires forall y :: eqB(y, y)
    requires k.keyClass == other.keyClass
    ensures KeyEquals(k, Some(other), eqA, eqB)
            <==> ComponentEquals(k.a, other.a, eqA) && ComponentEquals(k.b, other.b, eqB)
  {
    if other == k {
      if k.a.Some? {
        assert eqA(k.a.value, k.a.value);
      }
      if k.b.Some? {
        assert eqB(k.b.value, k.b.value);
      }
    }
  }

  /** Keys that are equal hash equally, when each component's hash agrees with its equality. */
  lemma KeyHashConsistent<A, B>(k: PairKey<A, B>, other: PairKey<A, B>,
                                eqA: (A, A) -> bool, eqB: (B, B) -> bool,
                                hashA: A -> HashCode, hashB: B -> HashCode)
    requires forall x, y :: eqA(x, y) ==> hashA(x) == hashA(y)
    requires forall x, y :: eqB(x, y) ==> hashB(x) == hashB(y)
    requires KeyEquals(k, Some(other), eqA, eqB)
    ensures KeyHash(k, hashA, hashB) == KeyHash(other, hashA, hashB)
  {
    if other != k {
      if k.a.Some? {
        assert eqA(k.a.value, other.a.value);
      }
      if k.b.Some? {
        assert eqB(k.b.value, other.b.value);
      }
    }
  }

  // ---- The two keys of the container

  /** `BindingKey`: a bound type and its qualifier. */
  type BindingKey = PairKey<TypeData, Annotation>

  /** `ProviderKey`: an implementation type and its scope annotation class. */
  type ProviderKey = PairKey<TypeData, ClassName>

  function BindingKeyOf(t: TypeData, qualifier: Option<Annotation>): BindingKey {
    PairKey(BindingKeyClass, Some(t), qualifier)
  }

  /** `new ProviderKey(implementation, scope)`; a binding bound with `to(provider)` and then scoped has no implementation. */
  function ProviderKeyOf(implementation: Option<TypeData>, scope: Option<ClassName>): ProviderKey {
    PairKey(ProviderKeyClass, implementation, scope)
  }

  /** An annotation's hash: any function of its value (qualifiers are compared as values). */
  function AnnotationHash(an: Annotation): HashCode {
    StringHash(an.annotationType)
  }

  function TypeDataHash(d: TypeData): HashCode {
    d.hashCode
  }

  function NameHash(n: ClassName): HashCode {
    ClassHash(Named(n))
  }

  function SameAnnotation(x: Annotation, y: Annotation): bool {
    x == y
  }

  function SameName(x: ClassName, y: ClassName): bool {
    x == y
  }

  /** The data of a canonical descriptor, as every `TypeData` the container builds is. */
  predicate CanonicalData(d: TypeData) {
    Coherent(d) && Canonical(d.ty)
  }

  /**
   * Over canonical `TypeData`, key equality is equality of the key values: a map keyed by
   * their values behaves as the `HashMap` keyed by `equals`.
   */
  lemma BindingKeyEqualsIsIdentity(k: BindingKey, other: BindingKey)
    requires k.a.Some? ==> CanonicalData(k.a.value)
    requires other.a.Some? ==> CanonicalData(other.a.value)
    ensures KeyEquals(k, Some(other), Equals, SameAnnotation) <==> k == other
  {
    if k.a.Some? && other.a.Some? {
      EqualsIsIdentity(k.a.value, other.a.value);
    }
  }

  lemma ProviderKeyEqualsIsIdentity(k: ProviderKey, other: ProviderKey)
    requires k.a.Some? ==> CanonicalData(k.a.value)
    requires other.a.Some? ==> CanonicalData(other.a.value)
    ensures KeyEquals(k, Some(other), Equals, SameName) <==> k == other
  {
    if k.a.Some? && other.a.Some? {
      EqualsIsIdentity(k.a.value, other.a.value);
    }
  }

  /** Equal binding keys of coherent data hash equally. */
  lemma BindingKeyHashConsistent(k: BindingKey, other: BindingKey)
    requires k.a.Some? ==> Coherent(k.a.value)
    requires other.a.Some? ==> Coherent(other.a.value)
    requires KeyEquals(k, Some(other), Equals, SameAnnotation)
    ensures KeyHash(k, TypeDataHash, AnnotationHash) == KeyHash(other, TypeDataHash, AnnotationHash)
  {
    if k != other && k.a.Some? {
      EqualsConsistentWithHash(k.a.value, other.a.value);
    }
  }
}
