/**
 * Density lists for level-of-detail streaming. A density value is a float in the
 * source; here it is an ordered integer key, compared the way Float.compare orders
 * the values that occur.
 */
module Densities {

  /** org.bimserver.geometry.Density, as the geometry generator returns it. */
  datatype GeneratedDensity = GeneratedDensity(
    kind: string, densityValue: int, geometryInfoId: int, nrPrimitives: int, volume: int)

  /** org.bimserver.models.store.Density, as the concrete revision stores it. */
  datatype Density = Density(
    kind: string, density: int, geometryInfoId: int, trianglesBelow: int, volume: int)

  /** The field copy of execute's first density loop. */
  function Stored(g: GeneratedDensity): (d: Density)
    ensures d.kind == g.kind && d.density == g.densityValue && d.geometryInfoId == g.geometryInfoId
    ensures d.trianglesBelow == g.nrPrimitives && d.volume == g.volume
  {
    Density(g.kind, g.densityValue, g.geometryInfoId, g.nrPrimitives, g.volume)
  }

  function StoredAll(gs: seq<GeneratedDensity>): (ds: seq<Density>)
    ensures |ds| == |gs|
    ensures forall i :: 0 <= i < |gs| ==> ds[i] == Stored(gs[i])
  {
    if gs == [] then [] else StoredAll(gs[..|gs| - 1]) + [Stored(gs[|gs| - 1])]
  }

  predicate SortedByDensity(s: seq<Density>) {
    forall i, j :: 0 <= i < j < |s| ==> s[i].density <= s[j].density
  }

  /** Insertion of d before the first element whose density is not below d's. */
  function Insert(d: Density, s: seq<Density>): seq<Density> {
    if s == [] || d.density <= s[0].density then [d] + s else [s[0]] + Insert(d, s[1..])
  }

  /**
   * List.sort with a Float.compare comparator: a stable sort by density, written
   * as an insertion sort whose inserted element goes before the equal ones.
   */
  function SortByDensity(s: seq<Density>): seq<Density> {
    if s == [] then [] else Insert(s[0], SortByDensity(s[1..]))
  }

  /** The sort returns a permutation of its input that is ordered by density. */
  lemma {:induction false} SortByDensityCorrect(s: seq<Density>)
    ensures SortedByDensity(SortByDensity(s))
    ensures multiset(SortByDensity(s)) == multiset(s) && |SortByDensity(s)| == |s|
  {
    if s != [] {
      SortByDensityCorrect(s[1..]);
      InsertHead(s, SortByDensity(s[1..]));
    }
  }

  /** Inserting the head of s into a sorted permutation of its tail sorts s. */
  lemma InsertHead(s: seq<Density>, sortedRest: seq<Density>)
    requires s != [] && SortedByDensity(sortedRest)
    requires multiset(sortedRest) == multiset(s[1..]) && |sortedRest| == |s| - 1
    ensures SortedByDensity(Insert(s[0], sortedRest))
    ensures multiset(Insert(s[0], sortedRest)) == multiset(s) && |Insert(s[0], sortedRest)| == |s|
  {
    InsertSorted(s[0], sortedRest);
    InsertCounts(s[0], sortedRest);
    assert s == [s[0]] + s[1..];
  }

  /** The elements of s whose density is k, in order. */
  function WithDensity(s: seq<Density>, k: int): seq<Density> {
    if s == [] then [] else (if s[0].density == k then [s[0]] else []) + WithDensity(s[1..], k)
  }

  /** The sum of trianglesBelow over s (the source's long accumulator, without overflow). */
  function TrianglesBelow(s: seq<Density>): int {
    if s == [] then 0 else s[0].trianglesBelow + TrianglesBelow(s[1..])
  }

  lemma {:induction false} InsertCounts(d: Density, s: seq<Density>)
    ensures multiset(Insert(d, s)) == multiset(s) + multiset{d}
    ensures |Insert(d, s)| == |s| + 1
    ensures TrianglesBelow(Insert(d, s)) == d.trianglesBelow + TrianglesBelow(s)
  {
    if s != [] && d.density > s[0].density {
      InsertCounts(d, s[1..]);
      assert s == [s[0]] + s[1..];
    }
  }

  /** Every element of an insertion is d or an element of s. */
  lemma InsertMembers(d: Density, s: seq<Density>, lo: int)
    requires d.density >= lo && forall i :: 0 <= i < |s| ==> s[i].density >= lo
    ensures forall i :: 0 <= i < |Insert(d, s)| ==> Insert(d, s)[i].density >= lo
  {
    InsertCounts(d, s);
    forall i | 0 <= i < |Insert(d, s)| ensures Insert(d, s)[i].density >= lo {
      var x := Insert(d, s)[i];
      assert x in multiset(Insert(d, s));
      if x != d {
        assert x in multiset(s);
      }
    }
  }

  lemma {:induction false} InsertSorted(d: Density, s: seq<Density>)
    requires SortedByDensity(s)
    ensures SortedByDensity(Insert(d, s))
  {
    if s != [] && d.density > s[0].density {
      var t := Insert(d, s[1..]);
      assert SortedByDensity(s[1..]);
      InsertSorted(d, s[1..]);
      InsertMembers(d, s[1..], s[0].density);
      forall i, j | 0 <= i < j < |[s[0]] + t|
        ensures ([s[0]] + t)[i].density <= ([s[0]] + t)[j].density
      {
        if i == 0 {
          assert ([s[0]] + t)[j] == t[j - 1];
        }
      }
    }
  }

  lemma {:induction false} InsertStable(d: Density, s: seq<Density>, k: int)
    ensures WithDensity(Insert(d, s), k) == (if d.density == k then [d] else []) + WithDensity(s, k)
  {
    if s != [] && d.density > s[0].density {
      var t := Insert(d, s[1..]);
      InsertStable(d, s[1..], k);
      assert WithDensity([s[0]] + t, k)
        == (if s[0].density == k then [s[0]] else []) + WithDensity(t, k);
    }
  }

  /** The sort is stable: entries of equal density keep their relative order. */
  lemma {:induction false} SortByDensityStable(s: seq<Density>, k: int)
    ensures WithDensity(SortByDensity(s), k) == WithDensity(s, k)
  {
    if s != [] {
      SortByDensityStable(s[1..], k);
      InsertStable(s[0], SortByDensity(s[1..]), k);
    }
  }

  /** Sorting does not change the triangle total. */
  lemma {:induction false} SortKeepsTriangles(s: seq<Density>)
    ensures TrianglesBelow(SortByDensity(s)) == TrianglesBelow(s)
  {
    if s != [] {
      SortKeepsTriangles(s[1..]);
      InsertCounts(s[0], SortByDensity(s[1..]));
    }
  }

  lemma {:induction false} TrianglesBelowAppend(a: seq<Density>, b: seq<Density>)
    ensures TrianglesBelow(a + b) == TrianglesBelow(a) + TrianglesBelow(b)
  {
    if a != [] {
      assert (a + b)[0] == a[0];
      assert (a + b)[1..] == a[1..] + b;
      TrianglesBelowAppend(a[1..], b);
    } else {
      assert a + b == b;
    }
  }

  /**
   * execute's first density loop and sort: copy each generated density into a stored
   * one, then sort the list by density.
   */
  method ConcreteRevisionDensities(generated: seq<GeneratedDensity>) returns (list: seq<Density>)
    ensures list == SortByDensity(StoredAll(generated))
    ensures SortedByDensity(list) && multiset(list) == multiset(StoredAll(generated))
  {
    var newList: seq<Density> := [];
    for i := 0 to |generated|
      invariant newList == StoredAll(generated[..i])
    {
      assert generated[..i + 1][..i] == generated[..i];
      newList := newList + [Stored(generated[i])];
    }
    assert generated[..|generated|] == generated;
    list := SortByDensity(newList);
    SortByDensityCorrect(newList);
  }
}
