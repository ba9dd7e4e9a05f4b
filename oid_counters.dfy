/**
 * The start-OID snapshot a concrete revision stores: one little-endian 8-byte long per
 * class that is not versioned per record, in the iteration order of the deserializer's
 * summary, and, in the second pass, two trailing slots for GeometryInfo and GeometryData.
 */
module OidCounters {
  import opened Wrappers
  import opened JavaNumbers
  import opened Schema
  import opened Exceptions

  // ---------------------------------------------------------------------------
  // Little-endian longs

  function Pow256(n: nat): (r: nat)
    ensures r > 0
  {
    if n == 0 then 1 else 256 * Pow256(n - 1)
  }

  /** The n low-order bytes of u, least significant first. */
  function LeBytes(u: nat, n: nat): (r: seq<Byte>)
    ensures |r| == n
  {
    if n == 0 then [] else [u % 256] + LeBytes(u / 256, n - 1)
  }

  /** The unsigned number whose little-endian bytes are b. */
  function LeValue(b: seq<Byte>): (u: nat)
    ensures u < Pow256(|b|)
  {
    if b == [] then 0 else b[0] + 256 * LeValue(b[1..])
  }

  lemma {:induction false} LeValueOfBytes(u: nat, n: nat)
    requires u < Pow256(n)
    ensures LeValue(LeBytes(u, n)) == u
  {
    if n > 0 {
      LeValueOfBytes(u / 256, n - 1);
      assert LeBytes(u, n)[1..] == LeBytes(u / 256, n - 1);
    }
  }

  lemma {:induction false} LeBytesOfValue(b: seq<Byte>)
    ensures LeBytes(LeValue(b), |b|) == b
  {
    if b != [] {
      LeBytesOfValue(b[1..]);
      var u := LeValue(b);
      assert u % 256 == b[0] && u / 256 == LeValue(b[1..]);
    }
  }

  /** ByteBuffer.putLong in LITTLE_ENDIAN order: the two's-complement bytes of v. */
  function LongBytes(v: Int64): (r: seq<Byte>)
    ensures |r| == 8
  {
    LeBytes(if v < 0 then v + TWO_64 else v, 8)
  }

  /** ByteBuffer.getLong in LITTLE_ENDIAN order on one 8-byte slot. */
  function DecodeLong(b: seq<Byte>): Int64
    requires |b| == 8
  {
    assert Pow256(8) == TWO_64;
    var u := LeValue(b);
    if u >= TWO_63 then u - TWO_64 else u
  }

  lemma LongRoundTrip(v: Int64)
    ensures DecodeLong(LongBytes(v)) == v
  {
    assert Pow256(8) == TWO_64;
    LeValueOfBytes(if v < 0 then v + TWO_64 else v, 8);
  }

  lemma SlotRoundTrip(b: seq<Byte>)
    requires |b| == 8
    ensures LongBytes(DecodeLong(b)) == b
  {
    assert Pow256(8) == TWO_64;
    LeBytesOfValue(b);
  }

  // ---------------------------------------------------------------------------
  // Arrays of longs

  /** A sequence of longs written one after the other with putLong. */
  function EncodeLongs(vs: seq<Int64>): (r: seq<Byte>)
    ensures |r| == 8 * |vs|
  {
    if vs == [] then [] else LongBytes(vs[0]) + EncodeLongs(vs[1..])
  }

  /** Successive getLong calls until fewer than eight bytes remain. */
  function DecodeLongs(b: seq<Byte>): (vs: seq<Int64>)
    ensures |vs| == |b| / 8
  {
    if |b| < 8 then [] else [DecodeLong(b[..8])] + DecodeLongs(b[8..])
  }

  lemma {:induction false} DecodeEncodeLongs(vs: seq<Int64>)
    ensures DecodeLongs(EncodeLongs(vs)) == vs
  {
    if vs != [] {
      var b := EncodeLongs(vs);
      assert b[..8] == LongBytes(vs[0]);
      assert b[8..] == EncodeLongs(vs[1..]);
      LongRoundTrip(vs[0]);
      DecodeEncodeLongs(vs[1..]);
    }
  }

  lemma {:induction false} EncodeDecodeLongs(b: seq<Byte>)
    requires |b| % 8 == 0
    ensures EncodeLongs(DecodeLongs(b)) == b
  {
    if b != [] {
      var vs := DecodeLongs(b);
      assert vs[1..] == DecodeLongs(b[8..]);
      EncodeDecodeLongs(b[8..]);
      SlotRoundTrip(b[..8]);
      assert b == b[..8] + b[8..];
    }
  }

  /** Slot i of an encoded array holds the i-th long. */
  lemma {:induction false} SlotOf(vs: seq<Int64>, i: nat)
    requires i < |vs|
    ensures EncodeLongs(vs)[8 * i..8 * i + 8] == LongBytes(vs[i])
    ensures DecodeLong(EncodeLongs(vs)[8 * i..8 * i + 8]) == vs[i]
  {
    if i > 0 {
      SlotOf(vs[1..], i - 1);
      assert EncodeLongs(vs)[8 * i..8 * i + 8] == EncodeLongs(vs[1..])[8 * (i - 1)..8 * (i - 1) + 8];
    }
    LongRoundTrip(vs[i]);
  }

  /** Writing one more long appends its eight bytes. */
  lemma {:induction false} EncodeLongsSnoc(vs: seq<Int64>, v: Int64)
    ensures EncodeLongs(vs + [v]) == EncodeLongs(vs) + LongBytes(v)
  {
    if vs != [] {
      assert (vs + [v])[1..] == vs[1..] + [v];
      EncodeLongsSnoc(vs[1..], v);
    }
  }

  // ---------------------------------------------------------------------------
  // The snapshot

  /** The summary classes that are counter versioned, in summary order. */
  function CounterClasses(cat: Catalog, classes: seq<EClass>): (r: seq<EClass>)
    ensures |r| <= |classes|
  {
    if classes == [] then []
    else
      var c := classes[|classes| - 1];
      var init := CounterClasses(cat, classes[..|classes| - 1]);
      if cat.PerRecordVersioning(c) then init else init + [c]
  }

  /** Exactly the summary classes that are not versioned per record are counter classes. */
  lemma {:induction false} CounterClassesMembers(cat: Catalog, classes: seq<EClass>)
    ensures forall c :: c in CounterClasses(cat, classes) <==> c in classes && !cat.PerRecordVersioning(c)
  {
    if classes != [] {
      var init := classes[..|classes| - 1];
      CounterClassesMembers(cat, init);
      assert classes == init + [classes[|classes| - 1]];
    }
  }

  /** The start OIDs of the given classes, in order. */
  function StartOidsOf(cs: seq<EClass>, startOids: map<EClass, Int64>): (r: seq<Int64>)
    requires forall c :: c in cs ==> c in startOids
    ensures |r| == |cs|
    ensures forall i :: 0 <= i < |cs| ==> r[i] == startOids[cs[i]]
  {
    if cs == [] then [] else StartOidsOf(cs[..|cs| - 1], startOids) + [startOids[cs[|cs| - 1]]]
  }

  predicate CountersKnown(cat: Catalog, classes: seq<EClass>, startOids: map<EClass, Int64>) {
    forall c :: c in CounterClasses(cat, classes) ==> c in startOids
  }

  predicate HasGeometrySlots(startOids: map<EClass, Int64>) {
    GeometryInfo in startOids && GeometryData in startOids
  }

  /** The array the first pass stores on the concrete revision. */
  function FirstOidArray(cat: Catalog, classes: seq<EClass>, startOids: map<EClass, Int64>): seq<Byte>
    requires CountersKnown(cat, classes, startOids)
  {
    EncodeLongs(StartOidsOf(CounterClasses(cat, classes), startOids))
  }

  /** The array the second pass stores: the first one plus the geometry slots, if any. */
  function SecondOidArray(cat: Catalog, classes: seq<EClass>, startOids: map<EClass, Int64>): seq<Byte>
    requires CountersKnown(cat, classes, startOids)
  {
    FirstOidArray(cat, classes, startOids)
      + if HasGeometrySlots(startOids)
        then EncodeLongs([startOids[GeometryInfo], startOids[GeometryData]])
        else []
  }

  /** The layout of the first array: one slot per counter-versioned class, in summary order. */
  lemma FirstOidArrayLayout(cat: Catalog, classes: seq<EClass>, startOids: map<EClass, Int64>)
    requires CountersKnown(cat, classes, startOids)
    ensures |FirstOidArray(cat, classes, startOids)| == 8 * |CounterClasses(cat, classes)|
    ensures forall i :: 0 <= i < |CounterClasses(cat, classes)| ==>
      DecodeLong(FirstOidArray(cat, classes, startOids)[8 * i..8 * i + 8])
        == startOids[CounterClasses(cat, classes)[i]]
    ensures DecodeLongs(FirstOidArray(cat, classes, startOids))
      == StartOidsOf(CounterClasses(cat, classes), startOids)
  {
    var vs := StartOidsOf(CounterClasses(cat, classes), startOids);
    forall i | 0 <= i < |CounterClasses(cat, classes)|
      ensures DecodeLong(FirstOidArray(cat, classes, startOids)[8 * i..8 * i + 8])
        == startOids[CounterClasses(cat, classes)[i]]
    {
      SlotOf(vs, i);
    }
    DecodeEncodeLongs(vs);
  }

  /** Two longs appended to an array land in the two slots after it. */
  lemma AppendTwoSlots(first: seq<Byte>, a: Int64, b: Int64)
    ensures var second := first + EncodeLongs([a, b]);
      && |second| == |first| + 16
      && second[..|first|] == first
      && DecodeLong(second[|first|..|first| + 8]) == a
      && DecodeLong(second[|first| + 8..]) == b
  {
    var tail := EncodeLongs([a, b]);
    var second := first + tail;
    SlotOf([a, b], 0);
    SlotOf([a, b], 1);
    assert second[|first|..|first| + 8] == tail[0..8];
    assert second[|first| + 8..] == tail[8..16];
  }

  /** The second array extends the first by exactly the two geometry slots, when both are known. */
  lemma SecondOidArrayLayout(cat: Catalog, classes: seq<EClass>, startOids: map<EClass, Int64>)
    requires CountersKnown(cat, classes, startOids)
    ensures var first := FirstOidArray(cat, classes, startOids);
      var second := SecondOidArray(cat, classes, startOids);
      && |first| <= |second|
      && second[..|first|] == first
      && (|second| == |first| + 16 <==> HasGeometrySlots(startOids))
      && (|second| == |first| <==> !HasGeometrySlots(startOids))
      && (HasGeometrySlots(startOids) ==>
            && DecodeLong(second[|first|..|first| + 8]) == startOids[GeometryInfo]
            && DecodeLong(second[|first| + 8..]) == startOids[GeometryData])
  {
    var first := FirstOidArray(cat, classes, startOids);
    if HasGeometrySlots(startOids) {
      AppendTwoSlots(first, startOids[GeometryInfo], startOids[GeometryData]);
    } else {
      assert SecondOidArray(cat, classes, startOids) == first;
    }
  }

  // ---------------------------------------------------------------------------
  // The buffer and the two passes of execute

  /** A heap ByteBuffer in LITTLE_ENDIAN order, written with relative putLong calls. */
  class ByteBuffer {
    const data: array<Byte>
    var position: nat

    ghost predicate Valid()
      reads this
    {
      position <= data.Length
    }

    /** ByteBuffer.allocate */
    constructor Allocate(capacity: nat)
      ensures Valid() && fresh(data)
      ensures data.Length == capacity && position == 0
    {
      data := new Byte[capacity];
      position := 0;
    }

    method PutLong(v: Int64)
      requires Valid() && position + 8 <= data.Length
      modifies this, data
      ensures Valid() && position == old(position) + 8
      ensures data[..position] == old(data[..position]) + LongBytes(v)
    {
      var bytes := LongBytes(v);
      forall k | 0 <= k < 8 {
        data[position + k] := bytes[k];
      }
      position := position + 8;
    }
  }

  /** One more counter-versioned class in the loop appends its start OID's slot. */
  lemma CounterStep(cat: Catalog, classes: seq<EClass>, i: nat, startOids: map<EClass, Int64>)
    requires i < |classes| && !cat.PerRecordVersioning(classes[i]) && classes[i] in startOids
    requires CountersKnown(cat, classes[..i], startOids)
    ensures CounterClasses(cat, classes[..i + 1]) == CounterClasses(cat, classes[..i]) + [classes[i]]
    ensures CountersKnown(cat, classes[..i + 1], startOids)
    ensures |CounterClasses(cat, classes[..i + 1])| <= |CounterClasses(cat, classes)|
    ensures EncodeLongs(StartOidsOf(CounterClasses(cat, classes[..i + 1]), startOids))
      == EncodeLongs(StartOidsOf(CounterClasses(cat, classes[..i]), startOids)) + LongBytes(startOids[classes[i]])
  {
    assert classes[..i + 1][..i] == classes[..i];
    var prefix := CounterClasses(cat, classes[..i]);
    assert StartOidsOf(prefix + [classes[i]], startOids)
      == StartOidsOf(prefix, startOids) + [startOids[classes[i]]] by {
      assert (prefix + [classes[i]])[..|prefix|] == prefix;
    }
    EncodeLongsSnoc(StartOidsOf(prefix, startOids), startOids[classes[i]]);
    CounterClassesOfPrefix(cat, classes, i + 1);
  }

  lemma {:induction false} CounterClassesOfPrefix(cat: Catalog, classes: seq<EClass>, j: nat)
    requires j <= |classes|
    ensures |CounterClasses(cat, classes[..j])| <= |CounterClasses(cat, classes)|
    decreases |classes| - j
  {
    if j < |classes| {
      CounterClassesOfPrefix(cat, classes, j + 1);
      assert classes[..j + 1][..j] == classes[..j];
    } else {
      assert classes[..j] == classes;
    }
  }

  /** The buffer holds the slots of the counter-versioned classes among cs, and nothing else yet. */
  ghost predicate Holds(b: ByteBuffer, cat: Catalog, cs: seq<EClass>, startOids: map<EClass, Int64>)
    reads b, b.data
  {
    && b.Valid()
    && CountersKnown(cat, cs, startOids)
    && b.position == 8 * |CounterClasses(cat, cs)|
    && b.data[..b.position] == EncodeLongs(StartOidsOf(CounterClasses(cat, cs), startOids))
  }

  /** One iteration of either pass: a counter-versioned class gets its slot, any other none. */
  method PutCounter(b: ByteBuffer, cat: Catalog, classes: seq<EClass>, i: nat, startOids: map<EClass, Int64>)
    requires i < |classes| && (cat.PerRecordVersioning(classes[i]) || classes[i] in startOids)
    requires Holds(b, cat, classes[..i], startOids)
    requires 8 * |CounterClasses(cat, classes)| <= b.data.Length
    modifies b, b.data
    ensures Holds(b, cat, classes[..i + 1], startOids)
  {
    assert classes[..i + 1][..i] == classes[..i];
    if !cat.PerRecordVersioning(classes[i]) {
      CounterStep(cat, classes, i, startOids);
      b.PutLong(startOids[classes[i]]);
    }
  }

  /** The oidCounters map the first pass records: each known counter class's start OID. */
  function CounterMap(cat: Catalog, cs: seq<EClass>, startOids: map<EClass, Int64>): map<EClass, Int64> {
    map c | c in CounterClasses(cat, cs) && c in startOids :: startOids[c]
  }

  lemma CounterMapStep(cat: Catalog, classes: seq<EClass>, i: nat, startOids: map<EClass, Int64>)
    requires i < |classes|
    ensures CounterMap(cat, classes[..i + 1], startOids) ==
      if cat.PerRecordVersioning(classes[i]) || classes[i] !in startOids
      then CounterMap(cat, classes[..i], startOids)
      else CounterMap(cat, classes[..i], startOids)[classes[i] := startOids[classes[i]]]
  {
    assert classes[..i + 1][..i] == classes[..i];
  }

  /** The loop that sizes the buffer: how many summary classes are counter versioned. */
  method CountCounterClasses(cat: Catalog, classes: seq<EClass>) returns (s: nat)
    ensures s == |CounterClasses(cat, classes)|
  {
    s := 0;
    for i := 0 to |classes|
      invariant s == |CounterClasses(cat, classes[..i])|
    {
      assert classes[..i + 1][..i] == classes[..i];
      if !cat.PerRecordVersioning(classes[i]) {
        s := s + 1;
      }
    }
    assert classes[..|classes|] == classes;
  }

  /**
   * The first pass (execute, before fixInverses): count the counter-versioned classes,
   * then write each one's start OID and record it in the oidCounters map.
   */
  method EncodeOidCounters(cat: Catalog, classes: seq<EClass>, startOids: map<EClass, Int64>)
    returns (r: Result<(seq<Byte>, map<EClass, Int64>), Exception>)
    ensures r.Success? <==> CountersKnown(cat, classes, startOids)
    ensures r.Failure? ==> r.error == NullPointerException
    ensures r.Success? ==> r.value.0 == FirstOidArray(cat, classes, startOids)
    ensures r.Success? ==>
      r.value.1 == map c | c in CounterClasses(cat, classes) && c in startOids :: startOids[c]
  {
    var s := CountCounterClasses(cat, classes);
    var buffer := new ByteBuffer.Allocate(8 * s);
    var oidCounters: map<EClass, Int64> := map[];
    for i := 0 to |classes|
      invariant buffer.data.Length == 8 * s
      invariant Holds(buffer, cat, classes[..i], startOids)
      invariant oidCounters == CounterMap(cat, classes[..i], startOids)
    {
      var c := classes[i];
      if !cat.PerRecordVersioning(c) {
        if c !in startOids {
          // Unboxing the missing Long throws.
          CounterClassesMembers(cat, classes);
          return Failure(NullPointerException);
        }
        oidCounters := oidCounters[c := startOids[c]];
      }
      CounterMapStep(cat, classes, i, startOids);
      PutCounter(buffer, cat, classes, i, startOids);
    }
    assert classes[..|classes|] == classes;
    assert buffer.data[..] == buffer.data[..buffer.position];
    r := Success((buffer.data[..], oidCounters));
  }

  /**
   * The second pass (execute, after the densities): every summary class's start OID is
   * unboxed, those of counter-versioned classes are written, then GeometryInfo and
   * GeometryData when the session has start OIDs for both.
   */
  method EncodeOidCountersWithGeometry(cat: Catalog, classes: seq<EClass>, startOids: map<EClass, Int64>)
    returns (r: Result<seq<Byte>, Exception>)
    ensures r.Success? <==> forall c :: c in classes ==> c in startOids
    ensures r.Failure? ==> r.error == NullPointerException
    ensures r.Success? ==>
      CountersKnown(cat, classes, startOids) && r.value == SecondOidArray(cat, classes, startOids)
  {
    var geometry := GeometryInfo in startOids && GeometryData in startOids;
    var counters := CountCounterClasses(cat, classes);
    var s := (if geometry then 2 else 0) + counters;
    var buffer := new ByteBuffer.Allocate(8 * s);
    for i := 0 to |classes|
      invariant buffer.data.Length == 8 * s
      invariant forall k :: 0 <= k < i ==> classes[k] in startOids
      invariant Holds(buffer, cat, classes[..i], startOids)
    {
      if classes[i] !in startOids {
        // Line 475 unboxes before the per-record test.
        return Failure(NullPointerException);
      }
      assert forall k :: 0 <= k < i + 1 ==> classes[k] in startOids;
      PutCounter(buffer, cat, classes, i, startOids);
    }
    assert classes[..|classes|] == classes;
    if geometry {
      PutGeometry(buffer, cat, classes, startOids);
    }
    assert buffer.data[..] == buffer.data[..buffer.position];
    r := Success(buffer.data[..]);
  }

  /** The two geometry slots that follow the counters in the second pass. */
  method PutGeometry(b: ByteBuffer, cat: Catalog, classes: seq<EClass>, startOids: map<EClass, Int64>)
    requires HasGeometrySlots(startOids)
    requires Holds(b, cat, classes, startOids) && b.position + 16 <= b.data.Length
    modifies b, b.data
    ensures b.Valid() && b.data[..b.position] == SecondOidArray(cat, classes, startOids)
  {
    var gi, gd := startOids[GeometryInfo], startOids[GeometryData];
    b.PutLong(gi);
    b.PutLong(gd);
    assert EncodeLongs([gi, gd]) == LongBytes(gi) + LongBytes(gd) by {
      assert [gi, gd][..1] == [gi];
    }
  }
}
