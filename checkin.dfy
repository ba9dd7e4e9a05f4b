/**
 * The bookkeeping of StreamingCheckinDatabaseAction.execute around its collaborators:
 * the project lookup, the two OID-counter snapshots, the inverse fixer, the density
 * lists of the concrete revision and of every revision it belongs to, the size totals,
 * the clear flag, and the failure path that releases the project's checkin flag and
 * decides which exception execute throws.
 */
module StreamingCheckin {
  import opened Wrappers
  import opened JavaNumbers
  import opened Schema
  import opened Exceptions
  import opened OidCounters
  import opened InverseFixup
  import opened Densities

  class ConcreteRevision {
    var oidCounters: seq<Byte>
    var densities: seq<Density>
    var size: int
    var clear: bool

    constructor ()
      ensures oidCounters == [] && densities == [] && size == 0 && !clear
    {
      oidCounters := [];
      densities := [];
      size := 0;
      clear := false;
    }
  }

  class Revision {
    const concreteRevisions: seq<ConcreteRevision>
    var densities: seq<Density>
    var nrPrimitives: int
    /** A Long that may be null. */
    var size: Option<int>

    constructor (concreteRevisions: seq<ConcreteRevision>)
      ensures this.concreteRevisions == concreteRevisions
      ensures densities == [] && nrPrimitives == 0 && size.None?
    {
      this.concreteRevisions := concreteRevisions;
      densities := [];
      nrPrimitives := 0;
      size := None;
    }
  }

  class Project {
    var concreteRevisions: seq<ConcreteRevision>
    var checkinInProgress: int

    constructor (concreteRevisions: seq<ConcreteRevision>, checkinInProgress: int)
      ensures this.concreteRevisions == concreteRevisions && this.checkinInProgress == checkinInProgress
    {
      this.concreteRevisions := concreteRevisions;
      this.checkinInProgress := checkinInProgress;
    }
  }

  // ---------------------------------------------------------------------------------
  // Densities of the revisions.
  // ---------------------------------------------------------------------------------

  /** The density list of each concrete revision, in order. */
  function DensityLists(crs: seq<ConcreteRevision>): (lists: seq<seq<Density>>)
    reads crs`densities
    ensures |lists| == |crs|
    ensures forall i :: 0 <= i < |crs| ==> lists[i] == crs[i].densities
  {
    if crs == [] then [] else [crs[0].densities] + DensityLists(crs[1..])
  }

  /** The first n lists, one after the other. */
  function ConcatUpTo(lists: seq<seq<Density>>, n: nat): seq<Density>
    requires n <= |lists|
  {
    if n == 0 then [] else ConcatUpTo(lists, n - 1) + lists[n - 1]
  }

  /** The density lists of the given concrete revisions, one after the other. */
  function Collected(crs: seq<ConcreteRevision>): seq<Density>
    reads crs`densities
  {
    ConcatUpTo(DensityLists(crs), |crs|)
  }

  /** The collecting loop of one revision: every density of crs, in order, and their triangle total. */
  method CollectDensities(crs: seq<ConcreteRevision>) returns (newList2: seq<Density>, nrTriangles: int)
    ensures newList2 == Collected(crs)
    ensures nrTriangles == TrianglesBelow(newList2)
  {
    ghost var lists := DensityLists(crs);
    nrTriangles := 0;
    newList2 := [];
    for i := 0 to |crs|
      invariant newList2 == ConcatUpTo(lists, i)
      invariant nrTriangles == TrianglesBelow(newList2)
    {
      newList2, nrTriangles := AddDensities(newList2, nrTriangles, crs[i].densities);
    }
  }

  /** The inner loop: add each density of one concrete revision to the list and the total. */
  method AddDensities(list: seq<Density>, total: int, densities: seq<Density>)
    returns (newList: seq<Density>, newTotal: int)
    requires total == TrianglesBelow(list)
    ensures newList == list + densities
    ensures newTotal == TrianglesBelow(newList)
  {
    newList, newTotal := list, total;
    for j := 0 to |densities|
      invariant newList == list + densities[..j]
      invariant newTotal == TrianglesBelow(newList)
    {
      var density := densities[j];
      TrianglesBelowAppend(newList, [density]);
      assert densities[..j + 1] == densities[..j] + [density];
      newList := newList + [density];
      newTotal := newTotal + density.trianglesBelow;
    }
    assert densities[..|densities|] == densities;
  }

  /**
   * One revision's density list: every density of its concrete revisions, sorted, and
   * the triangle total summed along the way.
   */
  method SetRevisionDensities(rev: Revision)
    modifies rev`densities, rev`nrPrimitives
    ensures rev.densities == SortByDensity(Collected(rev.concreteRevisions))
    ensures SortedByDensity(rev.densities)
    ensures multiset(rev.densities) == multiset(Collected(rev.concreteRevisions))
    ensures rev.nrPrimitives == TrianglesBelow(Collected(rev.concreteRevisions))
    ensures rev.nrPrimitives == TrianglesBelow(rev.densities)
    ensures Aggregated(rev)
  {
    var newList2, nrTriangles := CollectDensities(rev.concreteRevisions);
    SortKeepsTriangles(newList2);
    SortByDensityCorrect(newList2);
    StoreRevisionDensities(rev, newList2, nrTriangles);
  }

  /** The sort and the two setters that end the loop body for one revision. */
  method StoreRevisionDensities(rev: Revision, newList2: seq<Density>, nrTriangles: int)
    requires newList2 == Collected(rev.concreteRevisions)
    requires nrTriangles == TrianglesBelow(SortByDensity(newList2))
    modifies rev`densities, rev`nrPrimitives
    ensures rev.densities == SortByDensity(newList2) && rev.nrPrimitives == nrTriangles
    ensures newList2 == Collected(rev.concreteRevisions)
  {
    ghost var lists := DensityLists(rev.concreteRevisions);
    rev.densities := SortByDensity(newList2);
    rev.nrPrimitives := nrTriangles;
    assert DensityLists(rev.concreteRevisions) == lists;
  }

  /** A revision's density list and triangle total are those of its concrete revisions. */
  ghost predicate Aggregated(rev: Revision)
    reads rev`densities, rev`nrPrimitives, rev.concreteRevisions`densities
  {
    rev.densities == SortByDensity(Collected(rev.concreteRevisions)) &&
    rev.nrPrimitives == TrianglesBelow(Collected(rev.concreteRevisions))
  }

  /** Writes to other fields than the densities and triangle totals keep a revision aggregated. */
  twostate lemma AggregatedKept(rev: Revision)
    requires old(Aggregated(rev))
    requires unchanged(rev`densities, rev`nrPrimitives)
    requires forall cr :: cr in rev.concreteRevisions ==> unchanged(cr`densities)
    ensures Aggregated(rev)
  {
    var crs := rev.concreteRevisions;
    forall i | 0 <= i < |crs| ensures DensityLists(crs)[i] == old(DensityLists(crs))[i] {
      assert crs[i] in crs;
    }
    assert DensityLists(crs) == old(DensityLists(crs));
  }

  /** The revisions the new concrete revision belongs to get fresh, sorted density lists. */
  method AggregateRevisionDensities(revisions: seq<Revision>)
    modifies revisions`densities, revisions`nrPrimitives
    ensures forall rev {:trigger Aggregated(rev)} :: rev in revisions ==> Aggregated(rev)
  {
    for i := 0 to |revisions|
      invariant forall k :: 0 <= k < i ==> Aggregated(revisions[k])
    {
      AggregateNext(revisions, i, revisions[i]);
    }
  }

  /** One step of the loop: the next revision is aggregated and the earlier ones stay so. */
  method AggregateNext(revisions: seq<Revision>, i: nat, rev: Revision)
    requires i < |revisions| && revisions[i] == rev
    requires forall k :: 0 <= k < i ==> Aggregated(revisions[k])
    modifies rev`densities, rev`nrPrimitives
    ensures forall k :: 0 <= k < i + 1 ==> Aggregated(revisions[k])
  {
    label Before:
    SetRevisionDensities(rev);
    forall k | 0 <= k < i
      ensures Aggregated(revisions[k])
    {
      if revisions[k] != rev {
        AggregatedKept@Before(revisions[k]);
      }
    }
  }

  // ---------------------------------------------------------------------------------
  // Sizes.
  // ---------------------------------------------------------------------------------

  /** A null size counts as 0. */
  function OrZero(size: Option<int>): int {
    if size.Some? then size.value else 0
  }

  /** Every revision's size grows by the concrete revision's size, a null size counting as 0. */
  method AccumulateSizes(revisions: seq<Revision>, cr: ConcreteRevision)
    requires Distinct(revisions)
    modifies revisions`size
    ensures forall i :: 0 <= i < |revisions| ==> revisions[i].size == Some(OrZero(old(revisions[i].size)) + cr.size)
  {
    for i := 0 to |revisions|
      invariant forall k :: 0 <= k < i ==> revisions[k].size == Some(OrZero(old(revisions[k].size)) + cr.size)
      invariant forall k :: i <= k < |revisions| ==> revisions[k].size == old(revisions[k].size)
    {
      var revision := revisions[i];
      revision.size := Some(OrZero(revision.size) + cr.size);
    }
  }

  // ---------------------------------------------------------------------------------
  // The failure path.
  // ---------------------------------------------------------------------------------

  /**
   * What the catch block rethrows: the two declared kinds unchanged, anything else
   * wrapped in a UserException.
   */
  function Classify(e: Exception): (thrown: Exception)
    ensures Declared(thrown)
    ensures Declared(e) ==> thrown == e
    ensures !Declared(e) ==> thrown == UserException(CausedBy(e))
  {
    if e.BimserverDatabaseException? then e
    else if e.UserException? then e
    else UserException(CausedBy(e))
  }

  /**
   * The project lookup of execute. As written, the project's concrete revisions are
   * counted before the null check, so a missing project is a NullPointerException; as
   * intended, it is the "not found" UserException naming the poid.
   */
  function ProjectLookup(asWritten: bool, projectFound: bool, poid: int): Option<Exception> {
    if projectFound then None
    else if asWritten then Some(NullPointerException)
    else Some(UserException(ProjectNotFound(poid)))
  }

  /**
   * What leaves the catch block for the exception e. As written, the reloaded project is
   * dereferenced before anything is stored, so a missing project turns e into a
   * NullPointerException; as intended, a missing project is skipped and e is classified.
   * The result is a declared kind exactly when the project exists or the lookup is the
   * intended one.
   */
  function FailureOutcome(asWritten: bool, projectFound: bool, e: Exception): (thrown: Exception)
    ensures Declared(thrown) <==> projectFound || !asWritten
    ensures projectFound || !asWritten ==> thrown == Classify(e)
  {
    if asWritten && !projectFound then NullPointerException else Classify(e)
  }

  /**
   * As written, checking in to a poid with no project fails in the try block with a
   * NullPointerException and the catch block throws another one, which is neither of the
   * exceptions execute declares.
   */
  lemma UnknownProjectAsWritten(cat: Catalog, poid: int, classes: seq<EClass>,
                                startOids: Option<map<EClass, Int64>>, fixed: Result<map<int, VObject>, Exception>)
    ensures var fault := CheckinFault(cat, true, false, poid, classes, startOids, fixed);
      fault == Some(NullPointerException) &&
      FailureOutcome(true, false, fault.value) == NullPointerException &&
      !Declared(FailureOutcome(true, false, fault.value))
  {
  }

  /**
   * As intended, an unknown poid gives the "project not found" UserException, and every
   * failure of execute is one of the declared kinds.
   */
  lemma UnknownProjectIntended(cat: Catalog, poid: int, classes: seq<EClass>,
                               startOids: Option<map<EClass, Int64>>, fixed: Result<map<int, VObject>, Exception>,
                               projectFound: bool, e: Exception)
    ensures var fault := CheckinFault(cat, false, false, poid, classes, startOids, fixed);
      fault == Some(UserException(ProjectNotFound(poid))) &&
      FailureOutcome(false, false, fault.value) == UserException(ProjectNotFound(poid))
    ensures Declared(FailureOutcome(false, projectFound, e))
  {
  }

  /**
   * The catch block: a fresh session loads the project and clears its checkin flag,
   * which is persisted when that session commits; then e is classified. A project that
   * is not there is dereferenced as written, and skipped as intended.
   */
  method Abort(projects: map<int, Project>, poid: int, e: Exception, commits: bool, asWritten: bool)
    returns (thrown: Exception)
    modifies projects.Values`checkinInProgress
    ensures thrown == FailureOutcome(asWritten, poid in projects, e)
    ensures poid in projects && commits ==> projects[poid].checkinInProgress == 0
    ensures poid in projects && !commits ==> projects[poid].checkinInProgress == old(projects[poid].checkinInProgress)
    ensures forall p :: p in projects.Values && (poid !in projects || p != projects[poid]) ==>
      p.checkinInProgress == old(p.checkinInProgress)
  {
    if poid !in projects {
      if asWritten {
        thrown := NullPointerException;
        return;
      }
    } else if commits {
      var project := projects[poid];
      project.checkinInProgress := 0;
    }
    thrown := Classify(e);
  }

  // ---------------------------------------------------------------------------------
  // execute.
  // ---------------------------------------------------------------------------------

  /** Every class of the summary has a start OID (none is unboxed from a null). */
  predicate AllStartOidsKnown(classes: seq<EClass>, startOids: map<EClass, Int64>) {
    forall c :: c in classes ==> c in startOids
  }

  /** When every summary class has a start OID, so has every counter-versioned one. */
  lemma AllKnownCountersKnown(cat: Catalog, classes: seq<EClass>, startOids: map<EClass, Int64>)
    ensures AllStartOidsKnown(classes, startOids) ==> CountersKnown(cat, classes, startOids)
  {
    CounterClassesMembers(cat, classes);
  }

  /**
   * The density half of execute after fixInverses: the concrete revision's sorted list,
   * then the list and triangle total of every revision it belongs to.
   */
  method StoreDensities(generated: seq<GeneratedDensity>, cr: ConcreteRevision, revisions: seq<Revision>)
    modifies cr`densities, revisions`densities, revisions`nrPrimitives
    ensures cr.densities == SortByDensity(StoredAll(generated))
    ensures forall rev {:trigger Aggregated(rev)} :: rev in revisions ==> Aggregated(rev)
    ensures forall i :: 0 <= i < |revisions| ==> revisions[i].size == old(revisions[i].size)
  {
    cr.densities := ConcreteRevisionDensities(generated);
    AggregateRevisionDensities(revisions);
  }

  /**
   * The second OID-counter snapshot, the sizes, the new concrete revision on the project,
   * and the clear flag when the project already had concrete revisions.
   */
  method StoreSnapshot(cat: Catalog, classes: seq<EClass>, startOids: map<EClass, Int64>,
                       cr: ConcreteRevision, revisions: seq<Revision>,
                       project: Project, nrConcreteRevisionsBefore: nat, size: int)
    returns (r: Result<ConcreteRevision, Exception>)
    requires Distinct(revisions)
    modifies cr`oidCounters, cr`size, cr`clear, revisions`size, project`concreteRevisions
    ensures r.Success? <==> AllStartOidsKnown(classes, startOids)
    ensures r.Failure? ==> r.error == NullPointerException
    ensures r.Failure? ==> project.concreteRevisions == old(project.concreteRevisions)
    ensures r.Success? ==>
      CountersKnown(cat, classes, startOids) &&
      r.value == cr &&
      cr.oidCounters == SecondOidArray(cat, classes, startOids) &&
      cr.size == size &&
      cr.clear == (old(cr.clear) || nrConcreteRevisionsBefore != 0) &&
      project.concreteRevisions == old(project.concreteRevisions) + [cr]
    ensures r.Success? ==> forall i :: 0 <= i < |revisions| ==> revisions[i].size == Some(OrZero(old(revisions[i].size)) + size)
  {
    var second := EncodeOidCountersWithGeometry(cat, classes, startOids);
    if second.Failure? {
      return Failure(second.error);
    }
    cr.oidCounters := second.value;
    cr.size := size;
    AccumulateSizes(revisions, cr);
    project.concreteRevisions := project.concreteRevisions + [cr];
    if nrConcreteRevisionsBefore != 0 {
      cr.clear := true;
    }
    r := Success(cr);
  }

  /** The rest of execute once the inverses are fixed: densities, then the snapshot. */
  method CompleteRevision(cat: Catalog, classes: seq<EClass>, startOids: map<EClass, Int64>,
                          generated: seq<GeneratedDensity>, cr: ConcreteRevision, revisions: seq<Revision>,
                          project: Project, nrConcreteRevisionsBefore: nat, size: int)
    returns (r: Result<ConcreteRevision, Exception>)
    requires Distinct(revisions)
    modifies cr`densities, cr`oidCounters, cr`size, cr`clear
    modifies revisions`densities, revisions`nrPrimitives, revisions`size, project`concreteRevisions
    ensures r.Success? <==> AllStartOidsKnown(classes, startOids)
    ensures r.Failure? ==> r.error == NullPointerException
    ensures r.Failure? ==> project.concreteRevisions == old(project.concreteRevisions)
    ensures r.Success? ==>
      CountersKnown(cat, classes, startOids) &&
      r.value == cr &&
      cr.oidCounters == SecondOidArray(cat, classes, startOids) &&
      cr.densities == SortByDensity(StoredAll(generated)) &&
      cr.size == size &&
      cr.clear == (old(cr.clear) || nrConcreteRevisionsBefore != 0) &&
      project.concreteRevisions == old(project.concreteRevisions) + [cr]
    ensures r.Success? ==> forall rev {:trigger Aggregated(rev)} :: rev in revisions ==> Aggregated(rev)
    ensures r.Success? ==> forall i :: 0 <= i < |revisions| ==> revisions[i].size == Some(OrZero(old(revisions[i].size)) + size)
  {
    StoreDensities(generated, cr, revisions);
    r := SnapshotKeepingDensities(cat, classes, startOids, cr, revisions, project, nrConcreteRevisionsBefore, size);
  }

  /** The second snapshot leaves the density lists of the revisions as they were. */
  method SnapshotKeepingDensities(cat: Catalog, classes: seq<EClass>, startOids: map<EClass, Int64>,
                                  cr: ConcreteRevision, revisions: seq<Revision>,
                                  project: Project, nrConcreteRevisionsBefore: nat, size: int)
    returns (r: Result<ConcreteRevision, Exception>)
    requires Distinct(revisions)
    requires forall rev {:trigger Aggregated(rev)} :: rev in revisions ==> Aggregated(rev)
    modifies cr`oidCounters, cr`size, cr`clear, revisions`size, project`concreteRevisions
    ensures r.Success? <==> AllStartOidsKnown(classes, startOids)
    ensures r.Failure? ==> r.error == NullPointerException
    ensures r.Failure? ==> project.concreteRevisions == old(project.concreteRevisions)
    ensures r.Success? ==>
      CountersKnown(cat, classes, startOids) &&
      r.value == cr &&
      cr.oidCounters == SecondOidArray(cat, classes, startOids) &&
      cr.size == size &&
      cr.clear == (old(cr.clear) || nrConcreteRevisionsBefore != 0) &&
      project.concreteRevisions == old(project.concreteRevisions) + [cr]
    ensures r.Success? ==> forall i :: 0 <= i < |revisions| ==> revisions[i].size == Some(OrZero(old(revisions[i].size)) + size)
    ensures forall rev {:trigger Aggregated(rev)} :: rev in revisions ==> Aggregated(rev)
  {
    r := StoreSnapshot(cat, classes, startOids, cr, revisions, project, nrConcreteRevisionsBefore, size);
    forall rev | rev in revisions
      ensures Aggregated(rev)
    {
      AggregatedKept(rev);
    }
  }

  /**
   * The exception the try block raises, in the order its steps can raise it: the project
   * lookup, the start OIDs, the first snapshot, fixInverses, the second snapshot. None
   * when the block completes, which is exactly when the project exists, objects were
   * written, every summary class has a start OID and every back reference resolves.
   */
  function CheckinFault(cat: Catalog, asWritten: bool, projectFound: bool, poid: int, classes: seq<EClass>,
                        startOids: Option<map<EClass, Int64>>, fixed: Result<map<int, VObject>, Exception>)
    : (fault: Option<Exception>)
    ensures fault.None? <==>
      projectFound && startOids.Some? && AllStartOidsKnown(classes, startOids.value) && fixed.Success?
    ensures fault.Some? ==> Declared(fault.value) || fault.value == NullPointerException || fixed == Failure(fault.value)
  {
    if !projectFound then ProjectLookup(asWritten, projectFound, poid)
    else if startOids.None? then Some(BimserverDatabaseException(NoObjectsChanged))
    else
      AllKnownCountersKnown(cat, classes, startOids.value);
      if !CountersKnown(cat, classes, startOids.value) then Some(NullPointerException)
      else if fixed.Failure? then Some(fixed.error)
      else if !AllStartOidsKnown(classes, startOids.value) then Some(NullPointerException)
      else None
  }

  /**
   * Whatever the try block raises is declared by execute or is a NullPointerException,
   * and a NullPointerException comes from a summary class without a start OID or, as
   * written, from a missing project.
   */
  lemma CheckinFaultKinds(cat: Catalog, store: map<int, VObject>, asWritten: bool, projectFound: bool, poid: int,
                          classes: seq<EClass>, startOids: Option<map<EClass, Int64>>, scan: seq<VObject>)
    ensures var fault := CheckinFault(cat, asWritten, projectFound, poid, classes, startOids,
        FixEvents(cat, store, map[], ScanEvents(cat, scan)));
      fault.Some? ==> Declared(fault.value) || fault.value == NullPointerException
    ensures CheckinFault(cat, asWritten, projectFound, poid, classes, startOids,
        FixEvents(cat, store, map[], ScanEvents(cat, scan))) == Some(NullPointerException) ==>
      (!projectFound && asWritten) || (startOids.Some? && !AllStartOidsKnown(classes, startOids.value))
  {
    if FixEvents(cat, store, map[], ScanEvents(cat, scan)).Failure? {
      FixEventsFailure(cat, store, map[], ScanEvents(cat, scan));
    }
    if startOids.Some? {
      AllKnownCountersKnown(cat, classes, startOids.value);
    }
  }

  /** fixInverses runs: the project exists, objects were written and every counter class has a start OID. */
  predicate FixInversesRuns(cat: Catalog, projectFound: bool, classes: seq<EClass>, startOids: Option<map<EClass, Int64>>) {
    projectFound && startOids.Some? && CountersKnown(cat, classes, startOids.value)
  }

  /**
   * The try block of execute, with its collaborators as inputs: the project table, the
   * summary's classes, the session's start OIDs (None when nothing was written), the
   * inverse fixer over the new revision's objects, the densities the geometry generator
   * produced, the concrete revision and revisions createNewConcreteRevision made, and
   * the deserialized size. A failure is the exception the block raises.
   */
  method Checkin(projects: map<int, Project>, poid: int, classes: seq<EClass>,
                 startOids: Option<map<EClass, Int64>>, fixer: InverseFixer, scan: seq<VObject>,
                 generated: seq<GeneratedDensity>, cr: ConcreteRevision, revisions: seq<Revision>,
                 size: int, asWritten: bool)
    returns (r: Result<ConcreteRevision, Exception>)
    requires Distinct(revisions)
    modifies projects.Values`concreteRevisions, fixer`store, fixer`fetched, fixer`saved, cr`densities, cr`oidCounters, cr`size, cr`clear
    modifies revisions`densities, revisions`nrPrimitives, revisions`size
    ensures var fault := CheckinFault(fixer.catalog, asWritten, poid in projects, poid, classes, startOids,
        FixEvents(fixer.catalog, old(fixer.store), map[], ScanEvents(fixer.catalog, scan)));
      && (r.Failure? <==> fault.Some?)
      && (r.Failure? ==> fault == Some(r.error))
    ensures var spec := FixEvents(fixer.catalog, old(fixer.store), map[], ScanEvents(fixer.catalog, scan));
      fixer.store == if FixInversesRuns(fixer.catalog, poid in projects, classes, startOids) && spec.Success?
        then old(fixer.store) + spec.value else old(fixer.store)
    ensures forall p :: p in projects.Values && (poid !in projects || p != projects[poid]) ==>
      p.concreteRevisions == old(p.concreteRevisions)
    ensures r.Failure? && poid in projects ==>
      projects[poid].concreteRevisions == old(projects[poid].concreteRevisions)
    ensures r.Success? ==>
      var project := projects[poid];
      CountersKnown(fixer.catalog, classes, startOids.value) &&
      r.value == cr &&
      cr.oidCounters == SecondOidArray(fixer.catalog, classes, startOids.value) &&
      cr.densities == SortByDensity(StoredAll(generated)) &&
      cr.size == size &&
      cr.clear == (old(cr.clear) || |old(project.concreteRevisions)| != 0) &&
      project.concreteRevisions == old(project.concreteRevisions) + [cr]
    ensures r.Success? ==> forall rev {:trigger Aggregated(rev)} :: rev in revisions ==> Aggregated(rev)
    ensures r.Success? ==> forall i :: 0 <= i < |revisions| ==> revisions[i].size == Some(OrZero(old(revisions[i].size)) + size)
  {
    var lookup := ProjectLookup(asWritten, poid in projects, poid);
    if lookup.Some? {
      return Failure(lookup.value);
    }
    var project := projects[poid];
    var nrConcreteRevisionsBefore := |project.concreteRevisions|;
    if startOids.None? {
      return Failure(BimserverDatabaseException(NoObjectsChanged));
    }
    r := CheckinObjects(project, nrConcreteRevisionsBefore, poid, classes, startOids.value, fixer, scan,
      generated, cr, revisions, size);
  }

  /** The try block once the project is loaded and the session has start OIDs. */
  method CheckinObjects(project: Project, nrConcreteRevisionsBefore: nat, poid: int, classes: seq<EClass>,
                        startOids: map<EClass, Int64>, fixer: InverseFixer, scan: seq<VObject>,
                        generated: seq<GeneratedDensity>, cr: ConcreteRevision, revisions: seq<Revision>,
                        size: int)
    returns (r: Result<ConcreteRevision, Exception>)
    requires Distinct(revisions)
    modifies project`concreteRevisions, fixer`store, fixer`fetched, fixer`saved, cr`densities, cr`oidCounters, cr`size, cr`clear
    modifies revisions`densities, revisions`nrPrimitives, revisions`size
    ensures var fault := CheckinFault(fixer.catalog, false, true, poid, classes, Some(startOids),
        FixEvents(fixer.catalog, old(fixer.store), map[], ScanEvents(fixer.catalog, scan)));
      && (r.Failure? <==> fault.Some?)
      && (r.Failure? ==> fault == Some(r.error) && project.concreteRevisions == old(project.concreteRevisions))
    ensures var spec := FixEvents(fixer.catalog, old(fixer.store), map[], ScanEvents(fixer.catalog, scan));
      fixer.store == if CountersKnown(fixer.catalog, classes, startOids) && spec.Success?
        then old(fixer.store) + spec.value else old(fixer.store)
    ensures r.Success? ==>
      CountersKnown(fixer.catalog, classes, startOids) &&
      r.value == cr &&
      cr.oidCounters == SecondOidArray(fixer.catalog, classes, startOids) &&
      cr.densities == SortByDensity(StoredAll(generated)) &&
      cr.size == size &&
      cr.clear == (old(cr.clear) || nrConcreteRevisionsBefore != 0) &&
      project.concreteRevisions == old(project.concreteRevisions) + [cr]
    ensures r.Success? ==> forall rev {:trigger Aggregated(rev)} :: rev in revisions ==> Aggregated(rev)
    ensures r.Success? ==> forall i :: 0 <= i < |revisions| ==> revisions[i].size == Some(OrZero(old(revisions[i].size)) + size)
  {
    ghost var spec := FixEvents(fixer.catalog, fixer.store, map[], ScanEvents(fixer.catalog, scan));
    ObjectsFault(fixer.catalog, poid, classes, startOids, spec);
    var fixError := EncodeAndFix(classes, startOids, fixer, scan, cr);
    if fixError.Some? {
      return Failure(fixError.value);
    }
    ghost var fixedStore := fixer.store;
    r := CompleteRevision(fixer.catalog, classes, startOids, generated, cr, revisions, project,
      nrConcreteRevisionsBefore, size);
    assert fixer.store == fixedStore;
  }

  /** CheckinFault once the project is found and the session has start OIDs. */
  lemma ObjectsFault(cat: Catalog, poid: int, classes: seq<EClass>, startOids: map<EClass, Int64>,
                     fixed: Result<map<int, VObject>, Exception>)
    ensures CheckinFault(cat, false, true, poid, classes, Some(startOids), fixed) ==
      if !CountersKnown(cat, classes, startOids) then Some(NullPointerException)
      else if fixed.Failure? then Some(fixed.error)
      else if !AllStartOidsKnown(classes, startOids) then Some(NullPointerException)
      else None
    ensures AllStartOidsKnown(classes, startOids) ==> CountersKnown(cat, classes, startOids)
  {
    AllKnownCountersKnown(cat, classes, startOids);
  }

  /**
   * The first OID-counter snapshot, stored on the concrete revision, then fixInverses,
   * which on success leaves the patched objects in the fixer's storage.
   */
  method EncodeAndFix(classes: seq<EClass>, startOids: map<EClass, Int64>, fixer: InverseFixer,
                      scan: seq<VObject>, cr: ConcreteRevision)
    returns (err: Option<Exception>)
    modifies fixer`store, fixer`fetched, fixer`saved, cr`oidCounters
    ensures !CountersKnown(fixer.catalog, classes, startOids) ==> err == Some(NullPointerException)
    ensures var spec := FixEvents(fixer.catalog, old(fixer.store), map[], ScanEvents(fixer.catalog, scan));
      CountersKnown(fixer.catalog, classes, startOids) ==>
        cr.oidCounters == FirstOidArray(fixer.catalog, classes, startOids) &&
        (err.None? <==> spec.Success?) && (spec.Failure? ==> err == Some(spec.error))
    ensures var spec := FixEvents(fixer.catalog, old(fixer.store), map[], ScanEvents(fixer.catalog, scan));
      fixer.store == if CountersKnown(fixer.catalog, classes, startOids) && spec.Success?
        then old(fixer.store) + spec.value else old(fixer.store)
  {
    var first := EncodeOidCounters(fixer.catalog, classes, startOids);
    if first.Failure? {
      return Some(first.error);
    }
    cr.oidCounters := first.value.0;
    err := fixer.FixInverses(scan);
  }

  /**
   * execute: the try block, then on an exception the catch block, which releases the
   * project's checkin flag (persisted when releaseCommits) and throws what FailureOutcome
   * names. asWritten chooses between the project lookup and release as the source has
   * them and as they are evidently intended.
   */
  method Execute(projects: map<int, Project>, poid: int, classes: seq<EClass>,
                 startOids: Option<map<EClass, Int64>>, fixer: InverseFixer, scan: seq<VObject>,
                 generated: seq<GeneratedDensity>, cr: ConcreteRevision, revisions: seq<Revision>,
                 size: int, releaseCommits: bool, asWritten: bool)
    returns (r: Result<ConcreteRevision, Exception>)
    requires Distinct(revisions)
    modifies projects.Values`concreteRevisions, projects.Values`checkinInProgress, fixer`store, fixer`fetched, fixer`saved
    modifies cr`densities, cr`oidCounters, cr`size, cr`clear
    modifies revisions`densities, revisions`nrPrimitives, revisions`size
    ensures var fault := CheckinFault(fixer.catalog, asWritten, poid in projects, poid, classes, startOids,
        FixEvents(fixer.catalog, old(fixer.store), map[], ScanEvents(fixer.catalog, scan)));
      && (r.Success? <==> fault.None?)
      && (fault.Some? ==> r == Failure(FailureOutcome(asWritten, poid in projects, fault.value)))
    ensures var spec := FixEvents(fixer.catalog, old(fixer.store), map[], ScanEvents(fixer.catalog, scan));
      fixer.store == if FixInversesRuns(fixer.catalog, poid in projects, classes, startOids) && spec.Success?
        then old(fixer.store) + spec.value else old(fixer.store)
    ensures forall p :: p in projects.Values && (poid !in projects || p != projects[poid]) ==>
      p.concreteRevisions == old(p.concreteRevisions) && p.checkinInProgress == old(p.checkinInProgress)
    ensures r.Failure? && poid in projects ==>
      projects[poid].concreteRevisions == old(projects[poid].concreteRevisions) &&
      projects[poid].checkinInProgress == (if releaseCommits then 0 else old(projects[poid].checkinInProgress))
    ensures r.Success? ==>
      var project := projects[poid];
      CountersKnown(fixer.catalog, classes, startOids.value) &&
      r.value == cr &&
      cr.oidCounters == SecondOidArray(fixer.catalog, classes, startOids.value) &&
      cr.densities == SortByDensity(StoredAll(generated)) &&
      cr.size == size &&
      cr.clear == (old(cr.clear) || |old(project.concreteRevisions)| != 0) &&
      project.concreteRevisions == old(project.concreteRevisions) + [cr] &&
      project.checkinInProgress == old(project.checkinInProgress)
    ensures r.Success? ==> forall rev {:trigger Aggregated(rev)} :: rev in revisions ==> Aggregated(rev)
    ensures r.Success? ==> forall i :: 0 <= i < |revisions| ==> revisions[i].size == Some(OrZero(old(revisions[i].size)) + size)
  {
    r := Checkin(projects, poid, classes, startOids, fixer, scan, generated, cr, revisions, size, asWritten);
    if r.Failure? {
      var thrown := Abort(projects, poid, r.error, releaseCommits, asWritten);
      r := Failure(thrown);
    }
  }
}
