/**
 * The inverse fixer of the streaming checkin (both fixInverses overloads). One scan over
 * the objects of the new revision that have inverse references; every object such a
 * reference points at is loaded once into a patch cache, receives a back reference to
 * the referencing object, and the whole cache is written after the scan.
 */
module InverseFixup {
  import opened Wrappers
  import opened Schema
  import opened Exceptions

  /** The value of a reference field: a single OID (a Long) or a list of OIDs. */
  datatype Value = Single(oid: int) | Many(oids: seq<int>)

  /** A HashMapVirtualObject: its OID, its class and the reference fields that are set. */
  datatype VObject = VObject(oid: int, eClass: EClass, fields: map<string, Value>)

  function ReferencedOids(v: Value): seq<int> {
    match v
    case Single(o) => [o]
    case Many(os) => os
  }

  /** The OIDs a field holds; an unset (null) field holds none. */
  function ListOf(obj: VObject, name: string): seq<int> {
    if name in obj.fields then ReferencedOids(obj.fields[name]) else []
  }

  /**
   * The back reference written into target for `source.ref == target`: the opposite
   * reference, as seen from target's class, gets source's OID. An absent opposite
   * (IfcSpace has no RelatedElements, for instance) leaves target as it is.
   */
  function BackReference(cat: Catalog, target: VObject, ref: Feature, source: VObject): (t: VObject)
    ensures t.oid == target.oid && t.eClass == target.eClass
    ensures cat.InverseOrOpposite(target.eClass, ref).None? ==> t == target
    ensures cat.InverseOrOpposite(target.eClass, ref).Some? ==>
      var opp := cat.InverseOrOpposite(target.eClass, ref).value;
      t.fields.Keys == target.fields.Keys + {opp.name} &&
      (forall n :: n in target.fields && n != opp.name ==> t.fields[n] == target.fields[n]) &&
      (opp.many ==>
        var old_list := ListOf(target, opp.name);
        |ListOf(t, opp.name)| == |old_list| + 1 &&
        ListOf(t, opp.name)[..|old_list|] == old_list &&
        ListOf(t, opp.name)[|old_list|] == source.oid) &&
      (!opp.many ==> t.fields[opp.name] == Single(source.oid))
  {
    match cat.InverseOrOpposite(target.eClass, ref)
    case None => target
    case Some(opp) =>
      if opp.many then
        target.(fields := target.fields[opp.name := Many(ListOf(target, opp.name) + [source.oid])])
      else
        target.(fields := target.fields[opp.name := Single(source.oid)])
  }

  // ---------------------------------------------------------------------------------
  // The scan as a sequence of reference events, and the fold that specifies the fixer.
  // ---------------------------------------------------------------------------------

  /** One call of the second fixInverses overload: source.ref points at OID target. */
  datatype RefEvent = RefEvent(source: VObject, ref: Feature, target: int)

  function OidEvents(source: VObject, ref: Feature, oids: seq<int>): seq<RefEvent> {
    if oids == [] then [] else [RefEvent(source, ref, oids[0])] + OidEvents(source, ref, oids[1..])
  }

  /** The events of one reference field; a null field has none. */
  function FieldEvents(source: VObject, ref: Feature): seq<RefEvent> {
    if ref.name !in source.fields then []
    else match source.fields[ref.name]
      case Single(o) => [RefEvent(source, ref, o)]
      case Many(os) => OidEvents(source, ref, os)
  }

  function FeaturesEvents(source: VObject, refs: seq<Feature>): seq<RefEvent> {
    if refs == [] then [] else FieldEvents(source, refs[0]) + FeaturesEvents(source, refs[1..])
  }

  function ObjectEvents(cat: Catalog, source: VObject): seq<RefEvent> {
    if cat.HasInverses(source.eClass) then FeaturesEvents(source, cat.AllHasInverseReferences(source.eClass))
    else []
  }

  /** All events of the scan, in the order the fixer handles them. */
  function ScanEvents(cat: Catalog, scan: seq<VObject>): seq<RefEvent> {
    if scan == [] then [] else ObjectEvents(cat, scan[0]) + ScanEvents(cat, scan[1..])
  }

  /** getByOid against the new revision; None stands for null. */
  function Fetch(store: map<int, VObject>, oid: int): Option<VObject> {
    if oid in store then Some(store[oid]) else None
  }

  /** The second overload: look up the target in the cache, else load it, then patch it. */
  function FixEvent(cat: Catalog, store: map<int, VObject>, cache: map<int, VObject>, e: RefEvent)
    : (r: Result<map<int, VObject>, Exception>)
    ensures r.Success? <==> Resolvable(store, cache, e)
    ensures r.Failure? ==>
      r.error == BimserverDatabaseException(ReferencedObjectNotFound(e.target, e.source.eClass))
    ensures r.Success? ==>
      r.value.Keys == cache.Keys + {e.target} &&
      r.value[e.target] == BackReference(cat, Base(store, cache, e.target), e.ref, e.source) &&
      forall o :: o in cache && o != e.target ==> r.value[o] == cache[o]
  {
    if e.target in cache then
      Success(cache[e.target := BackReference(cat, cache[e.target], e.ref, e.source)])
    else match Fetch(store, e.target)
      case None => Failure(BimserverDatabaseException(ReferencedObjectNotFound(e.target, e.source.eClass)))
      case Some(obj) => Success(cache[e.target := BackReference(cat, obj, e.ref, e.source)])
  }

  /** The events handled in order; the first failing one ends the scan. */
  function FixEvents(cat: Catalog, store: map<int, VObject>, cache: map<int, VObject>, evs: seq<RefEvent>)
    : Result<map<int, VObject>, Exception>
    decreases |evs|
  {
    if evs == [] then Success(cache)
    else match FixEvent(cat, store, cache, evs[0])
      case Failure(e) => Failure(e)
      case Success(patchedCache) => FixEvents(cat, store, patchedCache, evs[1..])
  }

  /** Where the object with OID o starts from: the cache if it is there, else storage. */
  function Base(store: map<int, VObject>, cache: map<int, VObject>, o: int): VObject
    requires o in store || o in cache
  {
    if o in cache then cache[o] else store[o]
  }

  /** The back references of the events that target o, applied to obj in event order. */
  function BackReferences(cat: Catalog, obj: VObject, evs: seq<RefEvent>, o: int): VObject
    decreases |evs|
  {
    if evs == [] then obj
    else
      var patched := if evs[0].target == o then BackReference(cat, obj, evs[0].ref, evs[0].source) else obj;
      BackReferences(cat, patched, evs[1..], o)
  }

  predicate Resolvable(store: map<int, VObject>, cache: map<int, VObject>, e: RefEvent) {
    e.target in store || e.target in cache
  }

  function Targets(evs: seq<RefEvent>): set<int> {
    set i | 0 <= i < |evs| :: evs[i].target
  }

  /**
   * The outcome r of handling evs from cache, followed by rest, is what the fold gives:
   * a failure of r is the failure of the whole, a success continues with rest.
   */
  predicate Continues(cat: Catalog, store: map<int, VObject>, cache: map<int, VObject>, evs: seq<RefEvent>,
                      rest: seq<RefEvent>, r: Result<map<int, VObject>, Exception>)
  {
    FixEvents(cat, store, cache, evs + rest) ==
      if r.Failure? then Failure(r.error) else FixEvents(cat, store, r.value, rest)
  }

  lemma FixEventsCons(cat: Catalog, store: map<int, VObject>, cache: map<int, VObject>, e: RefEvent, rest: seq<RefEvent>)
    ensures var step := FixEvent(cat, store, cache, e);
      FixEvents(cat, store, cache, [e] + rest) ==
        if step.Failure? then Failure(step.error) else FixEvents(cat, store, step.value, rest)
  {
    assert ([e] + rest)[0] == e;
    assert ([e] + rest)[1..] == rest;
  }

  /** The fixer succeeds exactly when every target is cached or can be loaded. */
  lemma {:induction false} FixEventsSucceeds(cat: Catalog, store: map<int, VObject>, cache: map<int, VObject>, evs: seq<RefEvent>)
    ensures FixEvents(cat, store, cache, evs).Success? <==>
      forall i :: 0 <= i < |evs| ==> Resolvable(store, cache, evs[i])
    decreases |evs|
  {
    if evs != [] {
      var e := evs[0];
      if Resolvable(store, cache, e) {
        var patchedCache := FixEvent(cat, store, cache, e).value;
        assert patchedCache.Keys == cache.Keys + {e.target};
        FixEventsSucceeds(cat, store, patchedCache, evs[1..]);
        assert forall i :: 1 <= i < |evs| ==> evs[i] == evs[1..][i - 1];
        assert forall i :: 0 <= i < |evs| - 1 ==> evs[1..][i] == evs[i + 1];
      } else {
        assert !Resolvable(store, cache, evs[0]);
      }
    }
  }

  /** On success the cache holds exactly the initial entries and every target. */
  lemma {:induction false} FixEventsKeys(cat: Catalog, store: map<int, VObject>, cache: map<int, VObject>, evs: seq<RefEvent>)
    requires FixEvents(cat, store, cache, evs).Success?
    ensures FixEvents(cat, store, cache, evs).value.Keys == cache.Keys + Targets(evs)
    decreases |evs|
  {
    if evs != [] {
      var patchedCache := FixEvent(cat, store, cache, evs[0]).value;
      FixEventsKeys(cat, store, patchedCache, evs[1..]);
      assert Targets(evs) == {evs[0].target} + Targets(evs[1..]) by {
        forall t | t in Targets(evs) ensures t in {evs[0].target} + Targets(evs[1..]) {
          var i :| 0 <= i < |evs| && evs[i].target == t;
          if i > 0 {
            assert evs[1..][i - 1] == evs[i];
          }
        }
        forall t | t in Targets(evs[1..]) ensures t in Targets(evs) {
          var i :| 0 <= i < |evs[1..]| && evs[1..][i].target == t;
          assert evs[i + 1] == evs[1..][i];
        }
      }
    }
  }

  /**
   * A failure names the first event whose target is neither cached nor in storage: its
   * OID and the class of the object that referenced it.
   */
  lemma {:induction false} FixEventsFailure(cat: Catalog, store: map<int, VObject>, cache: map<int, VObject>, evs: seq<RefEvent>)
    requires FixEvents(cat, store, cache, evs).Failure?
    ensures exists i ::
      0 <= i < |evs| && !Resolvable(store, cache, evs[i]) &&
      (forall j :: 0 <= j < i ==> Resolvable(store, cache, evs[j])) &&
      FixEvents(cat, store, cache, evs).error ==
        BimserverDatabaseException(ReferencedObjectNotFound(evs[i].target, evs[i].source.eClass))
    decreases |evs|
  {
    var e := evs[0];
    if !Resolvable(store, cache, e) {
    } else {
      var patchedCache := FixEvent(cat, store, cache, e).value;
      FixEventsFailure(cat, store, patchedCache, evs[1..]);
      var k :| 0 <= k < |evs[1..]| && !Resolvable(store, patchedCache, evs[1..][k]) &&
        (forall j :: 0 <= j < k ==> Resolvable(store, patchedCache, evs[1..][j])) &&
        FixEvents(cat, store, patchedCache, evs[1..]).error ==
          BimserverDatabaseException(ReferencedObjectNotFound(evs[1..][k].target, evs[1..][k].source.eClass));
      assert evs[k + 1] == evs[1..][k];
      forall j | 0 <= j < k + 1 ensures Resolvable(store, cache, evs[j]) {
        if j > 0 {
          assert evs[j] == evs[1..][j - 1];
          assert Resolvable(store, patchedCache, evs[j]);
        }
      }
    }
  }

  /**
   * On success every cached object is its starting version with the back references of
   * all events that target it applied in scan order: one append or overwrite per event,
   * duplicates included, and objects no event targets stay as they started.
   */
  lemma {:induction false} FixEventsContents(cat: Catalog, store: map<int, VObject>, cache: map<int, VObject>, evs: seq<RefEvent>)
    requires FixEvents(cat, store, cache, evs).Success?
    ensures var result := FixEvents(cat, store, cache, evs).value;
      forall o :: o in result ==>
        (o in store || o in cache) && result[o] == BackReferences(cat, Base(store, cache, o), evs, o)
    decreases |evs|
  {
    var result := FixEvents(cat, store, cache, evs).value;
    if evs != [] {
      var e := evs[0];
      var patchedCache := FixEvent(cat, store, cache, e).value;
      FixEventsContents(cat, store, patchedCache, evs[1..]);
      forall o | o in result
        ensures (o in store || o in cache) && result[o] == BackReferences(cat, Base(store, cache, o), evs, o)
      {
        assert o in store || o in patchedCache;
        if o == e.target {
          assert Base(store, patchedCache, o) == BackReference(cat, Base(store, cache, o), e.ref, e.source);
        } else {
          assert Base(store, patchedCache, o) == Base(store, cache, o);
        }
      }
    }
  }

  /** Every event comes from a scanned object with inverses, through one of its inverse references. */
  lemma {:induction false} ScanEventsSound(cat: Catalog, scan: seq<VObject>)
    ensures forall e :: e in ScanEvents(cat, scan) ==>
      e.source in scan && cat.HasInverses(e.source.eClass) &&
      e.ref in cat.AllHasInverseReferences(e.source.eClass) &&
      e.target in ListOf(e.source, e.ref.name)
  {
    if scan != [] {
      ScanEventsSound(cat, scan[1..]);
      var source := scan[0];
      if cat.HasInverses(source.eClass) {
        FeaturesEventsSound(source, cat.AllHasInverseReferences(source.eClass));
      }
    }
  }

  lemma {:induction false} FeaturesEventsSound(source: VObject, refs: seq<Feature>)
    ensures forall e :: e in FeaturesEvents(source, refs) ==>
      e.source == source && e.ref in refs && e.target in ListOf(source, e.ref.name)
  {
    if refs != [] {
      FeaturesEventsSound(source, refs[1..]);
      var ref := refs[0];
      if ref.name in source.fields {
        match source.fields[ref.name]
        case Single(o) =>
        case Many(os) => OidEventsSound(source, ref, os);
      }
    }
  }

  lemma {:induction false} OidEventsSound(source: VObject, ref: Feature, oids: seq<int>)
    ensures forall e :: e in OidEvents(source, ref, oids) ==>
      e.source == source && e.ref == ref && e.target in oids
  {
    if oids != [] {
      OidEventsSound(source, ref, oids[1..]);
    }
  }

  /**
   * Every OID held in an inverse reference field of a scanned object with inverses is
   * an event of the scan, so it gets its back reference or makes the fixer fail.
   */
  lemma {:induction false} ScanEventsComplete(cat: Catalog, scan: seq<VObject>)
    ensures forall s, ref, o ::
      (s in scan && cat.HasInverses(s.eClass) && ref in cat.AllHasInverseReferences(s.eClass) &&
       o in ListOf(s, ref.name)) ==> RefEvent(s, ref, o) in ScanEvents(cat, scan)
  {
    if scan != [] {
      ScanEventsComplete(cat, scan[1..]);
      var first := scan[0];
      if cat.HasInverses(first.eClass) {
        FeaturesEventsComplete(first, cat.AllHasInverseReferences(first.eClass));
      }
      forall s, ref, o |
        s in scan && cat.HasInverses(s.eClass) && ref in cat.AllHasInverseReferences(s.eClass) &&
        o in ListOf(s, ref.name)
        ensures RefEvent(s, ref, o) in ScanEvents(cat, scan)
      {
        if s != first {
          assert s in scan[1..];
        }
      }
    }
  }

  lemma {:induction false} FeaturesEventsComplete(source: VObject, refs: seq<Feature>)
    ensures forall ref, o :: ref in refs && o in ListOf(source, ref.name) ==>
      RefEvent(source, ref, o) in FeaturesEvents(source, refs)
  {
    if refs != [] {
      FeaturesEventsComplete(source, refs[1..]);
      var first := refs[0];
      if first.name in source.fields {
        match source.fields[first.name]
        case Single(o) =>
        case Many(os) => OidEventsComplete(source, first, os);
      }
      forall ref, o | ref in refs && o in ListOf(source, ref.name)
        ensures RefEvent(source, ref, o) in FeaturesEvents(source, refs)
      {
        if ref != first {
          assert ref in refs[1..];
        }
      }
    }
  }

  lemma {:induction false} OidEventsComplete(source: VObject, ref: Feature, oids: seq<int>)
    ensures forall o :: o in oids ==> RefEvent(source, ref, o) in OidEvents(source, ref, oids)
  {
    if oids != [] {
      OidEventsComplete(source, ref, oids[1..]);
      forall o | o in oids ensures RefEvent(source, ref, o) in OidEvents(source, ref, oids) {
        if o != oids[0] {
          assert o in oids[1..];
        }
      }
    }
  }

  // ---------------------------------------------------------------------------------
  // The fixer as the source runs it: a cache, nested loops over the scan, then a save loop.
  // ---------------------------------------------------------------------------------

  class InverseFixer {
    const catalog: Catalog
    /** The objects of the new revision, keyed by OID, as the database session sees them. */
    var store: map<int, VObject>
    /** The OIDs loaded through getByOid during the last fixInverses, in order. */
    ghost var fetched: seq<int>
    /** The OIDs written by saveOverwrite during the last fixInverses, in order. */
    ghost var saved: seq<int>

    constructor (catalog: Catalog, store: map<int, VObject>)
      ensures this.catalog == catalog && this.store == store
      ensures fetched == [] && saved == []
    {
      this.catalog := catalog;
      this.store := store;
      fetched := [];
      saved := [];
    }

    /** getByOid */
    function GetByOid(oid: int): (r: Option<VObject>)
      reads this
      ensures r.Some? <==> oid in store
      ensures r.Some? ==> r.value == store[oid]
    {
      Fetch(store, oid)
    }

    /** The second overload: one back reference, loading the target on a cache miss. */
    method FixInverse(cache: map<int, VObject>, next: VObject, ref: Feature, refOid: int)
      returns (r: Result<map<int, VObject>, Exception>)
      modifies this`fetched
      ensures r == FixEvent(catalog, store, cache, RefEvent(next, ref, refOid))
      ensures fetched == old(fetched) + (if refOid in cache then [] else [refOid])
    {
      var cached := refOid in cache;
      var referencedObject: VObject;
      if cached {
        referencedObject := cache[refOid];
      } else {
        var loaded := GetByOid(refOid);
        fetched := fetched + [refOid];
        if loaded.None? {
          return Failure(BimserverDatabaseException(ReferencedObjectNotFound(refOid, next.eClass)));
        }
        referencedObject := loaded.value;
      }
      var patched := BackReference(catalog, referencedObject, ref, next);
      r := Success(cache[refOid := patched]);
    }

    /** The fetch log holds every cached OID and only those, each once. */
    ghost predicate FetchedAreCached(cache: map<int, VObject>)
      reads this
    {
      Distinct(fetched) && forall o :: o in fetched <==> o in cache
    }

    /** One field's list of references, in list order. */
    method FixListReferences(cache: map<int, VObject>, next: VObject, ref: Feature, references: seq<int>,
                             ghost rest: seq<RefEvent>)
      returns (r: Result<map<int, VObject>, Exception>)
      requires FetchedAreCached(cache)
      modifies this`fetched
      ensures Continues(catalog, store, cache, OidEvents(next, ref, references), rest, r)
      ensures Distinct(fetched) && (r.Success? ==> FetchedAreCached(r.value))
    {
      var current := cache;
      var j := 0;
      while j < |references|
        invariant j <= |references|
        invariant FixEvents(catalog, store, cache, OidEvents(next, ref, references) + rest)
          == FixEvents(catalog, store, current, OidEvents(next, ref, references[j..]) + rest)
        invariant FetchedAreCached(current)
      {
        assert references[j..][1..] == references[j + 1..];
        assert OidEvents(next, ref, references[j..]) + rest
          == [RefEvent(next, ref, references[j])] + (OidEvents(next, ref, references[j + 1..]) + rest);
        FixEventsCons(catalog, store, current, RefEvent(next, ref, references[j]),
          OidEvents(next, ref, references[j + 1..]) + rest);
        var res := FixInverse(current, next, ref, references[j]);
        if res.Failure? {
          return res;
        }
        current := res.value;
        j := j + 1;
      }
      assert references[j..] == [];
      assert OidEvents(next, ref, references[j..]) + rest == rest;
      r := Success(current);
    }

    /** One inverse reference field of a scanned object; a null field is skipped. */
    method FixField(cache: map<int, VObject>, next: VObject, ref: Feature, ghost rest: seq<RefEvent>)
      returns (r: Result<map<int, VObject>, Exception>)
      requires FetchedAreCached(cache)
      modifies this`fetched
      ensures Continues(catalog, store, cache, FieldEvents(next, ref), rest, r)
      ensures Distinct(fetched) && (r.Success? ==> FetchedAreCached(r.value))
    {
      if ref.name !in next.fields {
        assert FieldEvents(next, ref) + rest == rest;
        return Success(cache);
      }
      match next.fields[ref.name]
      case Many(references) =>
        r := FixListReferences(cache, next, ref, references, rest);
      case Single(reference) =>
        assert FieldEvents(next, ref) == [RefEvent(next, ref, reference)];
        FixEventsCons(catalog, store, cache, RefEvent(next, ref, reference), rest);
        r := FixInverse(cache, next, ref, reference);
    }

    /** All inverse references of one scanned object, in catalog order. */
    method FixObjectReferences(cache: map<int, VObject>, next: VObject, ghost rest: seq<RefEvent>)
      returns (r: Result<map<int, VObject>, Exception>)
      requires FetchedAreCached(cache)
      modifies this`fetched
      ensures Continues(catalog, store, cache, ObjectEvents(catalog, next), rest, r)
      ensures Distinct(fetched) && (r.Success? ==> FetchedAreCached(r.value))
    {
      if !catalog.HasInverses(next.eClass) {
        assert ObjectEvents(catalog, next) + rest == rest;
        return Success(cache);
      }
      var refs := catalog.AllHasInverseReferences(next.eClass);
      var current := cache;
      var i := 0;
      while i < |refs|
        invariant i <= |refs|
        invariant FixEvents(catalog, store, cache, ObjectEvents(catalog, next) + rest)
          == FixEvents(catalog, store, current, FeaturesEvents(next, refs[i..]) + rest)
        invariant FetchedAreCached(current)
      {
        var ref := refs[i];
        assert refs[i..][1..] == refs[i + 1..];
        ghost var later := FeaturesEvents(next, refs[i + 1..]) + rest;
        assert FeaturesEvents(next, refs[i..]) + rest == FieldEvents(next, ref) + later;
        var res := FixField(current, next, ref, later);
        if res.Failure? {
          return res;
        }
        current := res.value;
        i := i + 1;
      }
      assert refs[i..] == [];
      assert FeaturesEvents(next, refs[i..]) + rest == rest;
      r := Success(current);
    }

    /**
     * The first overload over a scan of the new revision. On success every cached object
     * has been saved exactly once after the scan and storage holds the patched objects;
     * on a missing target nothing has been saved. Each target is loaded at most once.
     */
    method FixInverses(scan: seq<VObject>) returns (err: Option<Exception>)
      modifies this`store, this`fetched, this`saved
      ensures var spec := FixEvents(catalog, old(store), map[], ScanEvents(catalog, scan));
        (err.None? <==> spec.Success?) &&
        (spec.Failure? ==> err == Some(spec.error) && store == old(store) && saved == []) &&
        (spec.Success? ==>
          store == old(store) + spec.value && Distinct(saved) &&
          (forall o :: o in saved <==> o in spec.value) &&
          (forall o :: o in fetched <==> o in spec.value))
      ensures Distinct(fetched)
    {
      ghost var spec := FixEvents(catalog, store, map[], ScanEvents(catalog, scan));
      fetched := [];
      saved := [];
      var cache: map<int, VObject> := map[];
      var n := 0;
      while n < |scan|
        invariant n <= |scan|
        invariant store == old(store) && saved == []
        invariant FixEvents(catalog, store, cache, ScanEvents(catalog, scan[n..])) == spec
        invariant FetchedAreCached(cache)
      {
        assert scan[n..][1..] == scan[n + 1..];
        ghost var after := ScanEvents(catalog, scan[n + 1..]);
        assert ScanEvents(catalog, scan[n..]) == ObjectEvents(catalog, scan[n]) + after;
        var res := FixObjectReferences(cache, scan[n], after);
        if res.Failure? {
          return Some(res.error);
        }
        cache := res.value;
        n := n + 1;
      }
      assert scan[n..] == [];
      SaveAll(cache);
      err := None;
    }

    /** The save loop: saveOverwrite once for every cached object. */
    method SaveAll(cache: map<int, VObject>)
      modifies this`store, this`saved
      requires saved == []
      ensures store == old(store) + cache
      ensures Distinct(saved) && forall o :: o in saved <==> o in cache
    {
      var pending := cache.Keys;
      while pending != {}
        invariant pending <= cache.Keys
        invariant store == old(store) + map k | k in cache.Keys - pending :: cache[k]
        invariant Distinct(saved) && forall k :: k in saved <==> k in cache.Keys - pending
        decreases pending
      {
        var o := Pick(pending);
        store := store[o := cache[o]];
        saved := saved + [o];
        pending := pending - {o};
      }
      assert cache == map k | k in cache.Keys - pending :: cache[k];
    }
  }
}
