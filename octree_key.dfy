/**
 * OctreeKey: the immutable key under which the octree of a query is cached. The hash
 * codes of its two sets are computed once, at construction, and equality compares those
 * cached hash codes rather than the sets themselves.
 */
module OctreeKeys {
  import opened Wrappers
  import opened JavaNumbers

  /**
   * The hashCode of the two kinds of Java set a key holds. They are given, not
   * computed; a Java set's hashCode depends only on its elements.
   */
  datatype SetHashing = SetHashing(ofClasses: set<string> -> Int32, ofIds: set<int> -> Int32)

  /** AbstractSet.hashCode sums its elements' hash codes, so an empty set hashes to 0. */
  predicate JavaSetHashing(h: SetHashing) {
    h.ofClasses({}) == 0 && h.ofIds({}) == 0
  }

  /**
   * The key's fields. A null set is None. The float minimumThreshold is held as its
   * Float.floatToIntBits value, which is all that equals and hashCode look at.
   */
  datatype OctreeKey = OctreeKey(
    roids: Option<set<int>>,
    excludedClasses: Option<set<string>>,
    maxDepth: Int32,
    minimumThresholdBits: Int32,
    geometryIdsToReuse: set<int>,
    excludedClassesHashCode: Int32,
    geometryIdsToReuseHashCode: Int32)
  {
    /** The cached hash codes are those of the sets the key holds. */
    predicate Valid(h: SetHashing) {
      excludedClassesHashCode == ExcludedClassesHash(h, excludedClasses) &&
      geometryIdsToReuseHashCode == h.ofIds(geometryIdsToReuse)
    }

    function GetRoids(): Option<set<int>> {
      roids
    }

    function GetExcludedClasses(): Option<set<string>> {
      excludedClasses
    }

    function GetGeometryIdsToReuse(): set<int> {
      geometryIdsToReuse
    }

    function GetMaxDepth(): Int32 {
      maxDepth
    }

    function GetMinimumThreshold(): Int32 {
      minimumThresholdBits
    }

    /**
     * hashCode: the base-31 fold of the fields, each step in 32-bit int arithmetic. In
     * closed form it is the polynomial with leading coefficient 31^5 for the initial 1,
     * wrapped once to an int.
     */
    function HashCode(h: SetHashing): (r: Int32)
      ensures r == Wrap32(28629151 + 923521 * excludedClassesHashCode
        + 29791 * geometryIdsToReuseHashCode + 961 * maxDepth
        + 31 * minimumThresholdBits + RoidsHash(h))
    {
      var r1 := HashStep(1, excludedClassesHashCode);
      var e1 := 31 + excludedClassesHashCode;
      HashStepCongruent(1, excludedClassesHashCode, 1);
      var r2 := HashStep(r1, geometryIdsToReuseHashCode);
      var e2 := 31 * e1 + geometryIdsToReuseHashCode;
      HashStepCongruent(r1, geometryIdsToReuseHashCode, e1);
      var r3 := HashStep(r2, maxDepth);
      var e3 := 31 * e2 + maxDepth;
      HashStepCongruent(r2, maxDepth, e2);
      var r4 := HashStep(r3, minimumThresholdBits);
      var e4 := 31 * e3 + minimumThresholdBits;
      HashStepCongruent(r3, minimumThresholdBits, e3);
      var r5 := HashStep(r4, RoidsHash(h));
      var e5 := 31 * e4 + RoidsHash(h);
      HashStepCongruent(r4, RoidsHash(h), e4);
      WrapCongruent(r5, e5);
      r5
    }

    /** The hashCode of roids, 0 for null. */
    function RoidsHash(h: SetHashing): Int32 {
      if roids.None? then 0 else h.ofIds(roids.value)
    }

    /** equals, as the chain of early returns it is written as. */
    function Equals(obj: Obj): (r: bool)
      ensures r <==>
        obj.Key? &&
        excludedClassesHashCode == obj.key.excludedClassesHashCode &&
        geometryIdsToReuseHashCode == obj.key.geometryIdsToReuseHashCode &&
        maxDepth == obj.key.maxDepth &&
        minimumThresholdBits == obj.key.minimumThresholdBits &&
        roids == obj.key.roids
    {
      if obj == Key(this) then true
      else if obj.Null? then false
      else if obj.Other? then false
      else
        var other := obj.key;
        if excludedClassesHashCode != other.excludedClassesHashCode then false
        else if geometryIdsToReuseHashCode != other.geometryIdsToReuseHashCode then false
        else if maxDepth != other.maxDepth then false
        else if minimumThresholdBits != other.minimumThresholdBits then false
        else if roids.None? then other.roids.None?
        else other.roids.Some? && roids.value == other.roids.value
    }
  }

  /** The argument of equals: null, another OctreeKey, or an object of some other class. */
  datatype Obj = Null | Key(key: OctreeKey) | Other(className: string)

  function ExcludedClassesHash(h: SetHashing, excludedClasses: Option<set<string>>): Int32 {
    if excludedClasses.Some? then h.ofClasses(excludedClasses.value) else 0
  }

  /** One step `prime * result + x` of hashCode, in int arithmetic. */
  function HashStep(result: Int32, x: Int32): Int32 {
    Wrap32(31 * result + x)
  }

  /**
   * The constructor. geometryIdsToReuse is dereferenced there, so it is never null;
   * a null excludedClasses is stored with hash code 0.
   */
  function NewOctreeKey(h: SetHashing, roids: Option<set<int>>, excludedClasses: Option<set<string>>,
                        geometryIdsToReuse: set<int>, maxDepth: Int32, minimumThresholdBits: Int32)
    : (k: OctreeKey)
    ensures k.Valid(h)
    ensures k.GetRoids() == roids && k.GetExcludedClasses() == excludedClasses
    ensures k.GetGeometryIdsToReuse() == geometryIdsToReuse
    ensures k.GetMaxDepth() == maxDepth && k.GetMinimumThreshold() == minimumThresholdBits
    ensures excludedClasses.None? ==> k.excludedClassesHashCode == 0
  {
    OctreeKey(roids, excludedClasses, maxDepth, minimumThresholdBits, geometryIdsToReuse,
      ExcludedClassesHash(h, excludedClasses), h.ofIds(geometryIdsToReuse))
  }

  lemma MultipleOfTwo32(a: int, c: int)
    requires a % TWO_32 == 0
    ensures (c * a) % TWO_32 == 0
  {
    var q := a / TWO_32;
    assert a == TWO_32 * q;
    assert c * a == TWO_32 * (c * q);
  }

  lemma SumOfMultiples(a: int, b: int)
    requires a % TWO_32 == 0 && b % TWO_32 == 0
    ensures (a + b) % TWO_32 == 0
  {
    var qa, qb := a / TWO_32, b / TWO_32;
    assert a == TWO_32 * qa && b == TWO_32 * qb;
    assert a + b == TWO_32 * (qa + qb);
  }

  /** A hash step keeps congruence modulo 2^32 with the unwrapped polynomial. */
  lemma HashStepCongruent(result: Int32, x: Int32, exact: int)
    requires (result - exact) % TWO_32 == 0
    ensures (HashStep(result, x) - (31 * exact + x)) % TWO_32 == 0
  {
    var wrapped := HashStep(result, x);
    var stepError := wrapped - (31 * result + x);
    var carried := 31 * (result - exact);
    MultipleOfTwo32(result - exact, 31);
    assert wrapped - (31 * exact + x) == stepError + carried;
    SumOfMultiples(stepError, carried);
  }

  /** equals is reflexive and rejects null and objects of any other class. */
  lemma EqualsReflexive(k: OctreeKey, className: string)
    ensures k.Equals(Key(k))
    ensures !k.Equals(Null) && !k.Equals(Other(className))
  {
  }

  lemma EqualsSymmetric(a: OctreeKey, b: OctreeKey)
    ensures a.Equals(Key(b)) == b.Equals(Key(a))
  {
  }

  lemma EqualsTransitive(a: OctreeKey, b: OctreeKey, c: OctreeKey)
    requires a.Equals(Key(b)) && b.Equals(Key(c))
    ensures a.Equals(Key(c))
  {
  }

  /** Equal keys have equal hash codes. */
  lemma HashConsistent(h: SetHashing, a: OctreeKey, b: OctreeKey)
    requires a.Equals(Key(b))
    ensures a.HashCode(h) == b.HashCode(h)
  {
  }

  /**
   * Keys built from different excluded classes and different geometry ids whose hash
   * codes collide are equal: equals never looks at the sets themselves.
   */
  lemma CollidingKeysAreEqual(h: SetHashing, roids: Option<set<int>>,
                              classes1: Option<set<string>>, classes2: Option<set<string>>,
                              ids1: set<int>, ids2: set<int>, maxDepth: Int32, bits: Int32)
    requires ExcludedClassesHash(h, classes1) == ExcludedClassesHash(h, classes2)
    requires h.ofIds(ids1) == h.ofIds(ids2)
    ensures NewOctreeKey(h, roids, classes1, ids1, maxDepth, bits)
      .Equals(Key(NewOctreeKey(h, roids, classes2, ids2, maxDepth, bits)))
  {
  }

  /**
   * A key without excluded classes equals the same key with a set of excluded classes
   * exactly when that set hashes to 0, the empty set among them.
   */
  lemma NullExcludedClasses(h: SetHashing, roids: Option<set<int>>, classes: set<string>,
                            ids: set<int>, maxDepth: Int32, bits: Int32)
    requires JavaSetHashing(h)
    ensures var bare := NewOctreeKey(h, roids, None, ids, maxDepth, bits);
      bare.Equals(Key(NewOctreeKey(h, roids, Some(classes), ids, maxDepth, bits))) <==>
        h.ofClasses(classes) == 0
    ensures NewOctreeKey(h, roids, None, ids, maxDepth, bits)
      .Equals(Key(NewOctreeKey(h, roids, Some({}), ids, maxDepth, bits)))
  {
  }
}
