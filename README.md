# BIMserver streaming checkin: a Dafny model

This project models the bookkeeping core of BIMserver's streaming checkin,
`StreamingCheckinDatabaseAction`, and the octree cache key `OctreeKey`. It proves
properties of the model.

The checkin parts modelled are these:

- **The two OID-counter snapshots** (`OidCounters`). Each is a little-endian array of
  8-byte longs holding the start OID of every summary class that is not versioned per
  record, in summary order. The second snapshot adds GeometryInfo and GeometryData slots.
  Both are filled by `putLong` into a `ByteBuffer`.
- **The inverse fixer** (`InverseFixup`). A scan over the new revision's objects loads
  every referenced object once into a patch cache and writes a back reference into it.
  The whole cache is saved after the scan.
- **The rollback sweep** (`Rollback`). It deletes an aborted revision's records from
  the non-transactional tables.
- **The density lists** (`Densities`, `StreamingCheckin`). These are the concrete
  revision's sorted list, and the list and triangle total of every revision it belongs to.
- **The remaining bookkeeping of `execute`** (`StreamingCheckin`):
  - the size totals;
  - the clear flag;
  - the order in which the try block can fail;
  - the catch block, which releases the project's `checkinInProgress` flag and decides
    which exception to throw.

State that the source changes in place is held in classes: the concrete revision, the
revisions, the project, the inverse fixer's store and the key-value store. Their methods
are proved against functions of their inputs:

- the fold `FixEvents` over the scan's reference events;
- `FirstOidArray` / `SecondOidArray`;
- `RolledBack` / `Deletions`;
- `SortByDensity` of `Collected`.

`OctreeKey` is pure. It is a datatype with functions, and the Java set `hashCode`s are
given as a `SetHashing` parameter.

Collaborators the model cannot see become inputs:

- the deserializer's summary classes, start OIDs and size;
- the geometry generator's densities;
- the query engine's scan of the new revision;
- the type catalog (`perRecordVersioning`, `hasInverses`, `getAllHasInverseReferences`,
  `getInverseOrOpposite`, `isMany`);
- the key-value store's transactional and failing tables;
- whether the catch block's own session commits.

Where the specification and the code disagree, the model follows the code:

- The snapshot is in the iteration order of the deserializer's summary map, not in
  catalog order.
- Only the second snapshot carries the geometry slots.
- An unknown poid does not raise the "not found" UserException. Line 154 dereferences
  the missing project before the null check at line 156, and the catch block dereferences
  it again at line 584, so execute throws a NullPointerException. With `asWritten` set,
  `CheckinFault`, `FailureOutcome`, `Checkin`, `Abort` and `Execute` follow this code.
  With it cleared they follow the evidently intended lookup (see Findings).
- The catch block does not clear the flag "regardless of fault kind". The flag is
  persisted only when the catch block's own session commits.

## Model

Source paths are relative to the repository root. Line numbers under "Left out" refer
to `StreamingCheckinDatabaseAction.java`.

| member | source | states |
|---|---|---|
| OidCounters.LongRoundTrip | BimServer/src/org/bimserver/database/actions/StreamingCheckinDatabaseAction.java:232-238 | getLong in little-endian order undoes putLong: decoding the 8 bytes written for any long gives that long back |
| OidCounters.SlotRoundTrip | BimServer/src/org/bimserver/database/actions/StreamingCheckinDatabaseAction.java:232-238 | every 8-byte slot is the putLong image of the long it decodes to, so the encoding is a bijection |
| OidCounters.DecodeEncodeLongs | BimServer/src/org/bimserver/database/actions/StreamingCheckinDatabaseAction.java:232-240 | decoding a buffer of consecutive putLong calls gives back exactly the longs written, in order |
| OidCounters.EncodeDecodeLongs | BimServer/src/org/bimserver/database/actions/StreamingCheckinDatabaseAction.java:232-240 | every byte array whose length is a multiple of 8 is the encoding of its decoded longs |
| OidCounters.SlotOf | BimServer/src/org/bimserver/database/actions/StreamingCheckinDatabaseAction.java:234-240 | bytes 8i to 8i+8 of the encoding are the putLong image of the i-th long, and decode to it |
| OidCounters.EncodeLongsSnoc | BimServer/src/org/bimserver/database/actions/StreamingCheckinDatabaseAction.java:238 | one more putLong appends exactly that long's eight bytes |
| OidCounters.CounterClassesMembers | BimServer/src/org/bimserver/database/actions/StreamingCheckinDatabaseAction.java:227-231 | a class gets a counter slot exactly when it is in the summary and is not versioned per record |
| OidCounters.CountCounterClasses | BimServer/src/org/bimserver/database/actions/StreamingCheckinDatabaseAction.java:226-231 | the counting loop computes s, the number of summary classes not versioned per record |
| OidCounters.FirstOidArrayLayout | BimServer/src/org/bimserver/database/actions/StreamingCheckinDatabaseAction.java:225-245 | the first array has 8 bytes per counter class; slot i decodes to the start OID of the i-th counter class in summary order; the whole array decodes to those start OIDs |
| OidCounters.SecondOidArrayLayout | BimServer/src/org/bimserver/database/actions/StreamingCheckinDatabaseAction.java:465-487 | the second array starts with the first one; it is 16 bytes longer, with GeometryInfo's then GeometryData's start OID, exactly when startOids holds both, and otherwise has the same length |
| OidCounters.AppendTwoSlots | BimServer/src/org/bimserver/database/actions/StreamingCheckinDatabaseAction.java:481-484 | two more putLong calls leave the earlier bytes alone and add two slots that decode to the two longs |
| OidCounters.ByteBuffer.Allocate | BimServer/src/org/bimserver/database/actions/StreamingCheckinDatabaseAction.java:232 | allocate gives a fresh buffer of the requested capacity at position 0 |
| OidCounters.ByteBuffer.PutLong | BimServer/src/org/bimserver/database/actions/StreamingCheckinDatabaseAction.java:238 | putLong needs 8 bytes of room, advances the position by 8 and appends the little-endian bytes of the long after the written prefix |
| OidCounters.CounterStep | BimServer/src/org/bimserver/database/actions/StreamingCheckinDatabaseAction.java:234-239 | a summary class that is not versioned per record adds one counter class and one slot holding its start OID |
| OidCounters.PutCounter | BimServer/src/org/bimserver/database/actions/StreamingCheckinDatabaseAction.java:234-240 | one iteration of the first loop keeps the buffer holding exactly the encoded start OIDs of the counter classes seen so far |
| OidCounters.CounterMapStep | BimServer/src/org/bimserver/database/actions/StreamingCheckinDatabaseAction.java:237 | one iteration adds the class to oidCounters exactly when it is a counter class with a start OID |
| OidCounters.EncodeOidCounters | BimServer/src/org/bimserver/database/actions/StreamingCheckinDatabaseAction.java:225-245 | succeeds exactly when every counter class has a start OID, else raises the NullPointerException of unboxing a null; on success the buffer is FirstOidArray and oidCounters maps each counter class to its start OID |
| OidCounters.PutGeometry | BimServer/src/org/bimserver/database/actions/StreamingCheckinDatabaseAction.java:481-484 | the two geometry putLong calls turn the first array into SecondOidArray |
| OidCounters.EncodeOidCountersWithGeometry | BimServer/src/org/bimserver/database/actions/StreamingCheckinDatabaseAction.java:465-487 | succeeds exactly when every summary class has a start OID, because the start OID is unboxed before the per-record test; otherwise it raises a NullPointerException; on success the buffer is SecondOidArray |
| InverseFixup.BackReference | BimServer/src/org/bimserver/database/actions/StreamingCheckinDatabaseAction.java:697-716 | with no opposite the target is unchanged; a many-valued opposite grows by one entry, the referencing OID at index old length (0 when absent), earlier entries kept, duplicates allowed; a single-valued opposite is overwritten; no other field changes |
| InverseFixup.FixEventsCons | BimServer/src/org/bimserver/database/actions/StreamingCheckinDatabaseAction.java:687-696 | handling one event and then the rest is the fold over both: a failure stops, a success continues from the patched cache |
| InverseFixup.FixEventsSucceeds | BimServer/src/org/bimserver/database/actions/StreamingCheckinDatabaseAction.java:689-696 | the fixer succeeds if and only if every referenced OID is cached or can be loaded |
| InverseFixup.FixEventsKeys | BimServer/src/org/bimserver/database/actions/StreamingCheckinDatabaseAction.java:689-696 | on success the cache holds exactly its initial entries plus every referenced OID |
| InverseFixup.FixEventsFailure | BimServer/src/org/bimserver/database/actions/StreamingCheckinDatabaseAction.java:690-694 | a failure is the BimserverDatabaseException for the first unresolvable reference, naming its OID and the referencing object's class; every earlier reference resolved |
| InverseFixup.FixEventsContents | BimServer/src/org/bimserver/database/actions/StreamingCheckinDatabaseAction.java:689-716 | on success each cached object is its cached or stored version with the back references of every event targeting it applied in scan order |
| InverseFixup.FixEvent | BimServer/src/org/bimserver/database/actions/StreamingCheckinDatabaseAction.java:687-716 | one back reference succeeds exactly when its target is cached or stored; otherwise the BimserverDatabaseException names the target OID and the referencing class; on success the cache gains the target, which is its cached or stored version with the back reference added, and every other entry is kept |
| InverseFixup.ScanEventsSound | BimServer/src/org/bimserver/database/actions/StreamingCheckinDatabaseAction.java:656-678 | every event comes from a scanned object whose class has inverses, through one of its inverse references, and targets an OID held in that field |
| InverseFixup.FeaturesEventsSound | BimServer/src/org/bimserver/database/actions/StreamingCheckinDatabaseAction.java:663-675 | the events of one object come from that object, through a listed reference, to an OID held in that field |
| InverseFixup.OidEventsSound | BimServer/src/org/bimserver/database/actions/StreamingCheckinDatabaseAction.java:666-670 | the events of a reference list come from that object and reference, to OIDs of that list |
| InverseFixup.ScanEventsComplete | BimServer/src/org/bimserver/database/actions/StreamingCheckinDatabaseAction.java:656-678 | conversely, every OID held in an inverse reference of a scanned object whose class has inverses gives an event, so no back reference is skipped |
| InverseFixup.FeaturesEventsComplete | BimServer/src/org/bimserver/database/actions/StreamingCheckinDatabaseAction.java:663-675 | every OID held in one of the listed references of an object gives an event from that object and reference |
| InverseFixup.OidEventsComplete | BimServer/src/org/bimserver/database/actions/StreamingCheckinDatabaseAction.java:666-670 | every OID of a reference list gives an event |
| InverseFixup.InverseFixer.FixInverse | BimServer/src/org/bimserver/database/actions/StreamingCheckinDatabaseAction.java:687-717 | the second overload is FixEvent on one event; it loads the target only on a cache miss |
| InverseFixup.InverseFixer.FixListReferences | BimServer/src/org/bimserver/database/actions/StreamingCheckinDatabaseAction.java:666-670 | the loop over a reference list agrees with the fold over its events, and keeps every target loaded once and each load cached |
| InverseFixup.InverseFixer.FixField | BimServer/src/org/bimserver/database/actions/StreamingCheckinDatabaseAction.java:664-674 | one reference field agrees with the fold over its events: a null field has none, a single value has one, a list has one per element |
| InverseFixup.InverseFixer.FixObjectReferences | BimServer/src/org/bimserver/database/actions/StreamingCheckinDatabaseAction.java:662-676 | the loop over an object's inverse references agrees with the fold over the object's events, with the same load discipline |
| InverseFixup.InverseFixer.FixInverses | BimServer/src/org/bimserver/database/actions/StreamingCheckinDatabaseAction.java:631-685 | fails exactly when the fold fails, with its error and with nothing saved; on success storage holds the patched cache, every cached object is saved exactly once, and each target was loaded exactly once |
| InverseFixup.InverseFixer.SaveAll | BimServer/src/org/bimserver/database/actions/StreamingCheckinDatabaseAction.java:682-684 | saveOverwrite runs once for each cached object, and storage afterwards holds the cache over the old contents |
| Rollback.UnsignedOid | BimServer/src/org/bimserver/database/actions/StreamingCheckinDatabaseAction.java:765 | the OID read as an unsigned 64-bit value: below 2^64, and equal to the OID when the OID is not negative |
| Rollback.BeBytesOrder | BimServer/src/org/bimserver/database/actions/StreamingCheckinDatabaseAction.java:762-765 | ByteBuffer's big-endian bytes of the same width compare, unsigned and from the first byte, as the numbers they encode, and equal bytes mean equal numbers |
| Rollback.OidKeyOrder | BimServer/src/org/bimserver/database/actions/StreamingCheckinDatabaseAction.java:765 | the OID's eight key bytes order OIDs as unsigned 64-bit values, and distinct OIDs have distinct bytes |
| Rollback.InRangeByKeyBytes | BimServer/src/org/bimserver/database/actions/StreamingCheckinDatabaseAction.java:772 | a key is in the iterator's range exactly when its pid is the revision's and its OID bytes are not below the start OID's bytes |
| JavaNumbers.Neg32 | BimServer/src/org/bimserver/database/actions/StreamingCheckinDatabaseAction.java:780 | Java's int negation of the key's trailing int: -x, except that Integer.MIN_VALUE negates to itself |
| Rollback.RolledBackExactly | BimServer/src/org/bimserver/database/actions/StreamingCheckinDatabaseAction.java:759-797 | no table appears or disappears; a record is removed exactly when its table is non-transactional and accessible, its class has a start OID, its key is in the (pid, oid >= startOid) range and its trailing int negates to rid; other tables are untouched |
| Rollback.RollbackIdempotent | BimServer/src/org/bimserver/database/actions/StreamingCheckinDatabaseAction.java:747-800 | a second rollback of the same revision leaves the tables as they are and deletes nothing |
| Rollback.DeletionsStep | BimServer/src/org/bimserver/database/actions/StreamingCheckinDatabaseAction.java:782-785 | sweeping one more class adds that table's doomed records, which are disjoint from those deleted before |
| Rollback.SweepStep | BimServer/src/org/bimserver/database/actions/StreamingCheckinDatabaseAction.java:782-785 | a swept table adds the number of its doomed records to deleted; any other class adds nothing |
| Rollback.SweptTablesStep | BimServer/src/org/bimserver/database/actions/StreamingCheckinDatabaseAction.java:768-796 | sweeping one more class changes only that class's table, and only when it is non-transactional and accessible |
| Rollback.KeyValueStore.Delete | BimServer/src/org/bimserver/database/actions/StreamingCheckinDatabaseAction.java:783 | delete removes one key from one table and changes nothing else |
| Rollback.SweepTable | BimServer/src/org/bimserver/database/actions/StreamingCheckinDatabaseAction.java:772-792 | the record loop over one table's range deletes exactly its doomed records and counts them |
| Rollback.Rollback | BimServer/src/org/bimserver/database/actions/StreamingCheckinDatabaseAction.java:747-800 | a null newRevision raises a NullPointerException at line 751 and changes nothing; with no start OIDs it raises "No objects changed" and changes nothing; otherwise the tables become RolledBack and the result is the number of records deleted, the count logged at line 798 |
| Densities.StoredAll | BimServer/src/org/bimserver/database/actions/StreamingCheckinDatabaseAction.java:423-431 | one stored density per generated density, in order |
| Densities.InsertCounts | BimServer/src/org/bimserver/database/actions/StreamingCheckinDatabaseAction.java:432-436 | inserting a density adds exactly that element and its triangle count |
| Densities.InsertSorted | BimServer/src/org/bimserver/database/actions/StreamingCheckinDatabaseAction.java:432-436 | inserting into a sorted list keeps it sorted |
| Densities.InsertStable | BimServer/src/org/bimserver/database/actions/StreamingCheckinDatabaseAction.java:432-436 | insertion puts the new element ahead of the entries of equal density and keeps their order |
| Densities.SortByDensityCorrect | BimServer/src/org/bimserver/database/actions/StreamingCheckinDatabaseAction.java:432-436 | List.sort by Float.compare of the densities returns a list that is non-decreasing in density and a permutation of its input; the sort function itself has no contract, and these facts are stated here |
| Densities.SortByDensityStable | BimServer/src/org/bimserver/database/actions/StreamingCheckinDatabaseAction.java:454-458 | the sort is stable: the entries of each density keep their relative order |
| Densities.SortKeepsTriangles | BimServer/src/org/bimserver/database/actions/StreamingCheckinDatabaseAction.java:454-460 | sorting does not change the sum of trianglesBelow |
| Densities.TrianglesBelowAppend | BimServer/src/org/bimserver/database/actions/StreamingCheckinDatabaseAction.java:450 | the triangle total of a concatenation is the sum of the totals |
| Densities.ConcreteRevisionDensities | BimServer/src/org/bimserver/database/actions/StreamingCheckinDatabaseAction.java:422-437 | the concrete revision's list is the generated densities, copied, then sorted: sorted by density and a permutation of the copies |
| StreamingCheckin.DensityLists | BimServer/src/org/bimserver/database/actions/StreamingCheckinDatabaseAction.java:447-448 | one density list per concrete revision of the revision, in order |
| StreamingCheckin.AddDensities | BimServer/src/org/bimserver/database/actions/StreamingCheckinDatabaseAction.java:448-451 | the inner loop appends one concrete revision's densities to the list and adds their triangles to nrTriangles |
| StreamingCheckin.CollectDensities | BimServer/src/org/bimserver/database/actions/StreamingCheckinDatabaseAction.java:443-452 | the collecting loops give the concatenation of the concrete revisions' lists, in order, and nrTriangles is its triangle total |
| StreamingCheckin.SetRevisionDensities | BimServer/src/org/bimserver/database/actions/StreamingCheckinDatabaseAction.java:442-461 | a revision's new list is the sorted concatenation of its concrete revisions' lists: sorted by density and a permutation of it; its NrPrimitives is the triangle sum of that list |
| StreamingCheckin.AggregatedKept | BimServer/src/org/bimserver/database/actions/StreamingCheckinDatabaseAction.java:442-461 | writes to other fields than a revision's list and triangle total, and to no concrete revision's list, keep that revision aggregated |
| StreamingCheckin.AggregateNext | BimServer/src/org/bimserver/database/actions/StreamingCheckinDatabaseAction.java:442-461 | one iteration of the revision loop aggregates the next revision and keeps the earlier ones aggregated |
| StreamingCheckin.AggregateRevisionDensities | BimServer/src/org/bimserver/database/actions/StreamingCheckinDatabaseAction.java:442-461 | after the loop every revision of the result is aggregated |
| StreamingCheckin.StoreDensities | BimServer/src/org/bimserver/database/actions/StreamingCheckinDatabaseAction.java:419-461 | the concrete revision's list is its sorted generated densities, then every revision is aggregated; no size changes |
| StreamingCheckin.AccumulateSizes | BimServer/src/org/bimserver/database/actions/StreamingCheckinDatabaseAction.java:493-495 | every revision's size becomes its old size, with null as 0, plus the concrete revision's size |
| StreamingCheckin.StoreSnapshot | BimServer/src/org/bimserver/database/actions/StreamingCheckinDatabaseAction.java:465-552 | the second snapshot fails with a NullPointerException exactly when a summary class has no start OID, leaving the project's list alone; on success the concrete revision gets SecondOidArray and the size, every revision's size grows by it, the concrete revision is appended to the project, and clear is set when the project had concrete revisions before |
| StreamingCheckin.SnapshotKeepingDensities | BimServer/src/org/bimserver/database/actions/StreamingCheckinDatabaseAction.java:465-502 | the same as StoreSnapshot, and every revision stays aggregated |
| StreamingCheckin.CompleteRevision | BimServer/src/org/bimserver/database/actions/StreamingCheckinDatabaseAction.java:419-552 | densities, then the snapshot: success exactly when every summary class has a start OID; on success the densities, counters, size, clear flag, project list and revision sizes are as above |
| StreamingCheckin.EncodeAndFix | BimServer/src/org/bimserver/database/actions/StreamingCheckinDatabaseAction.java:225-249 | a counter class without a start OID raises a NullPointerException and fixInverses does not run; otherwise the concrete revision gets FirstOidArray and the result is the fixer's outcome; the fixer's storage becomes the old storage overlaid with the patched cache exactly when fixInverses runs and succeeds, and is unchanged otherwise |
| StreamingCheckin.AllKnownCountersKnown | BimServer/src/org/bimserver/database/actions/StreamingCheckinDatabaseAction.java:474-478 | when every summary class has a start OID, so has every counter class |
| StreamingCheckin.CheckinFault | BimServer/src/org/bimserver/database/actions/StreamingCheckinDatabaseAction.java:152-552 | the exception the try block raises, in the order its steps raise it: none exactly when the project exists, start OIDs exist, every summary class has one and every back reference resolves; any fault is a declared kind, a NullPointerException or the fixer's own error |
| StreamingCheckin.FailureOutcome | BimServer/src/org/bimserver/database/actions/StreamingCheckinDatabaseAction.java:581-601 | the exception the catch block throws: a declared kind exactly when the project exists or the lookup is the intended one, and then the classified fault; as written, an unknown project gives the NullPointerException of line 584 |
| StreamingCheckin.CheckinFaultKinds | BimServer/src/org/bimserver/database/actions/StreamingCheckinDatabaseAction.java:581-601 | the try block raises only declared kinds or a NullPointerException, and a NullPointerException only for an unknown project as written or a summary class without a start OID |
| StreamingCheckin.CheckinObjects | BimServer/src/org/bimserver/database/actions/StreamingCheckinDatabaseAction.java:221-552 | once the project is loaded: fails exactly with CheckinFault's exception, leaving the project's list alone; the fixer's storage gains the patched cache exactly when fixInverses runs and succeeds; on success the second snapshot, densities, size, clear flag, project list, aggregated revisions and every revision's size are as CompleteRevision states |
| StreamingCheckin.Checkin | BimServer/src/org/bimserver/database/actions/StreamingCheckinDatabaseAction.java:140-580 | the try block fails exactly when CheckinFault names an exception, and with that exception (unknown project, as written or intended, "No objects changed", NullPointerException for a missing start OID, or the fixer's error); the fixer's storage gains the patched cache exactly when fixInverses runs and succeeds; no other project's list changes, nor this one's on failure; on success the concrete revision, project and revisions are updated as above |
| StreamingCheckin.Classify | BimServer/src/org/bimserver/database/actions/StreamingCheckinDatabaseAction.java:594-600 | BimserverDatabaseException and UserException are rethrown unchanged; anything else is wrapped in a UserException; the result is always declared |
| StreamingCheckin.Abort | BimServer/src/org/bimserver/database/actions/StreamingCheckinDatabaseAction.java:581-601 | the catch block throws FailureOutcome; it sets the project's checkinInProgress to 0 when its session commits, keeps it otherwise, and changes no other project's flag; as written an unknown project throws at line 584 before anything is set |
| StreamingCheckin.Execute | BimServer/src/org/bimserver/database/actions/StreamingCheckinDatabaseAction.java:139-603 | execute succeeds exactly when CheckinFault is None; otherwise it throws FailureOutcome of the fault, leaves the project's concrete revisions alone, and clears the flag when the release commits; the fixer's storage gains the patched cache exactly when fixInverses runs and succeeds; no other project's list or flag changes; on success the second snapshot, densities, size, clear flag, project list, every revision's density list and total, and every revision's size are as the source sets them, and the flag is untouched |
| StreamingCheckin.UnknownProjectAsWritten | BimServer/src/org/bimserver/database/actions/StreamingCheckinDatabaseAction.java:153-154 | as written, CheckinFault for an unknown poid is a NullPointerException, and FailureOutcome throws that undeclared exception out of execute |
| StreamingCheckin.UnknownProjectIntended | BimServer/src/org/bimserver/database/actions/StreamingCheckinDatabaseAction.java:156-158 | as intended, CheckinFault for an unknown poid is the "Project with poid ... not found" UserException, FailureOutcome rethrows it, and every failure outcome is a declared kind |
| OctreeKeys.NewOctreeKey | BimServer/src/org/bimserver/database/queries/OctreeKey.java:14-47 | the constructor caches the hash codes of the sets it holds, a null excludedClasses hashing to 0, and every getter returns its constructor argument |
| OctreeKeys.HashStepCongruent | BimServer/src/org/bimserver/database/queries/OctreeKey.java:53-57 | each `prime * result + x` step in int arithmetic stays congruent modulo 2^32 to the exact polynomial |
| OctreeKeys.OctreeKey.HashCode | BimServer/src/org/bimserver/database/queries/OctreeKey.java:50-58 | hashCode, computed as the source does in int arithmetic, is the base-31 polynomial from 1 over the cached excludedClasses hash, the cached geometry-ids hash, maxDepth, the threshold's float bits and the roids hash (0 for null), wrapped once to an int |
| OctreeKeys.OctreeKey.Equals | BimServer/src/org/bimserver/database/queries/OctreeKey.java:61-84 | equals holds if and only if the argument is an OctreeKey with the same two cached hash codes, maxDepth, threshold bits and roids (both null or equal) |
| OctreeKeys.EqualsReflexive | BimServer/src/org/bimserver/database/queries/OctreeKey.java:63-68 | a key equals itself and differs from null and from objects of any other class |
| OctreeKeys.EqualsSymmetric | BimServer/src/org/bimserver/database/queries/OctreeKey.java:70-83 | equals is symmetric |
| OctreeKeys.EqualsTransitive | BimServer/src/org/bimserver/database/queries/OctreeKey.java:70-83 | equals is transitive |
| OctreeKeys.HashConsistent | BimServer/src/org/bimserver/database/queries/OctreeKey.java:49-84 | equal keys have equal hash codes |
| OctreeKeys.CollidingKeysAreEqual | BimServer/src/org/bimserver/database/queries/OctreeKey.java:70-77 | keys built from different sets whose hash codes collide are equal, because equals compares only the cached hashes |
| OctreeKeys.NullExcludedClasses | BimServer/src/org/bimserver/database/queries/OctreeKey.java:16-22 | a key without excludedClasses equals the same key with a set of excluded classes exactly when that set hashes to 0, the empty set among them |

## Left out

- Reading the input stream, the deserializer and its progress reporter (lines 141-143, 147-150 and 198-218) are left out. The summary classes, start OIDs and size are inputs, and `createNewConcreteRevision` is given as the concrete revision and revisions it returns.
- Authorization, the user lookup, the e-mail check and the package metadata lookup (lines 152, 155, 159-169) are foreign checks. They are not modelled, and the errors they raise are not among CheckinFault's cases.
- The geometry generator, the bounds folding in floating point (lines 251-268 and 276-417), the report and `storeExtendedData` (lines 554-558, 605-628) belong to an external subsystem and to float arithmetic.
- These are writes to collaborators whose effect the model cannot observe: `clearPostCommitActions` (line 145), the `hasGeometry` flag of every revision and the multiplier and bounds setters (lines 269-275), the IfcHeader, the NewRevisionAdded audit entry, the service links, the revision summary, `clearCache`, the post-commit action and the final `store` calls (lines 489-490, 497-501, 506-530, 560-580).
- Query construction, QueryObjectProvider iteration and the progress of `fixInverses` (lines 634-661) are modelled only as the given scan sequence.
- The error message for a missing target also names the class that `getEClassForOid` finds for the OID. The model names only the OID and the referencing class.
- Hash iteration orders are left out:
  - the start OIDs' key set in `rollback` (any order is picked, and the result does not depend on it);
  - the cache's values in the save loop (any order);
  - the summary map's key set, which is an input sequence.
- InverseFixup.BackReference: when the opposite is many-valued but the target holds a single value there, the cast to `List` at line 708 raises a ClassCastException. The model reads the single value as a one-element list and appends to it.
- InverseFixup.InverseFixer.FixField: the model decides single or many by the stored value's shape, not by `isMany`. A value whose shape disagrees with `isMany` (a ClassCastException in the source) is not modelled.
- Rollback.Rollback: the source only logs `deleted` (line 798) and returns nothing. The model returns the count so that its contract can state it.
- Rollback.Rollback: a failing table access is modelled as the whole table raising before any delete. An exception in the middle of a table, after some deletes, is not modelled.
- Rollback.Rollback, StreamingCheckin.AccumulateSizes and StreamingCheckin.CollectDensities: `deleted`, the sizes and `nrTriangles` are unbounded integers. Java's int and long overflow on them is not modelled.
- StreamingCheckin.AccumulateSizes: requires the revisions to be distinct. In the source a revision listed twice gets the size twice, and this contract does not describe that.
- StreamingCheckin.CollectDensities: every concrete revision of every revision is taken to hold a density collection. Line 448 dereferences `getDensityCollection()` without a null check, and only the new concrete revision is given one (line 420), so an older concrete revision without a collection raises a NullPointerException there, which the catch block wraps in a UserException. This fault is not modelled, so CheckinFault and Execute do not include it.
- Densities.SortByDensity: density values are floats in the source. The model uses integer keys ordered as Float.compare orders them, and leaves out NaN and signed zeros.
- StreamingCheckin.Execute: on failure the model keeps the in-memory writes made before the fault, such as the fixer's saved objects and the density lists. Discarding them belongs to the database session's abort, which is not part of this model.
- StreamingCheckin.Abort: the catch block's session commit and its logging are left out; whether it commits is a parameter. So are the concurrency meaning of `checkinInProgress` and the post-commit action that clears it on success.
- OctreeKeys.NewOctreeKey: Java's set `hashCode` is a given function (SetHashing) and is not computed. The float threshold is held as its `floatToIntBits` value, so `getMinimumThreshold` returns those bits.

## Findings

| source | as written | input that shows it | evidently intended | confidence | as-written member | corrected member |
|---|---|---|---|---|---|---|
| BimServer/src/org/bimserver/database/actions/StreamingCheckinDatabaseAction.java:153-158 | line 154 calls `project.getConcreteRevisions()` before the null check at line 156, and the catch block dereferences the reloaded project again at line 584 | a poid with no project: `getProjectByPoid` returns null, line 154 throws a NullPointerException, and line 584 throws another one out of the catch block, so execute throws an undeclared NullPointerException | the "Project with poid ... not found" UserException from line 157, rethrown by the catch block | not executed | StreamingCheckin.UnknownProjectAsWritten | StreamingCheckin.UnknownProjectIntended |
