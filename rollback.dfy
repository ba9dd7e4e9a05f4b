/**
 * The rollback sweep of an aborted checkin. Records of transactional tables are undone by
 * the database itself; in every other table of a class that received new objects, the
 * records written for the aborted revision are deleted one by one.
 */
module Rollback {
  import opened Wrappers
  import opened JavaNumbers
  import opened Schema
  import opened Exceptions
  import opened OidCounters

  /**
   * A record key: the project id (4 bytes), the OID (8 bytes) and the negated revision
   * id (4 bytes), as the key-value store lays them out.
   */
  datatype Key = Key(pid: Int32, oid: Int64, negRid: Int32)

  /** The OID as the 8 big-endian key bytes order it: unsigned. */
  function UnsignedOid(oid: Int64): (u: nat)
    ensures u < TWO_64
    ensures oid >= 0 ==> u == oid
  {
    if oid < 0 then oid + TWO_64 else oid
  }

  /** putLong in the buffer's default big-endian order: the n low-order bytes of u, most significant first. */
  function BeBytes(u: nat, n: nat): (b: seq<Byte>)
    ensures |b| == n
  {
    if n == 0 then [] else BeBytes(u / 256, n - 1) + [u % 256]
  }

  /** The 8 key bytes of an OID: its two's-complement value, most significant byte first. */
  function OidKeyBytes(oid: Int64): (b: seq<Byte>)
    ensures |b| == 8
  {
    BeBytes(UnsignedOid(oid), 8)
  }

  /** The key order of the store: unsigned bytes, compared from the first one on. */
  predicate BytesBelow(a: seq<Byte>, b: seq<Byte>)
    requires |a| == |b|
  {
    |a| > 0 && (a[0] < b[0] || (a[0] == b[0] && BytesBelow(a[1..], b[1..])))
  }

  /** Two equally long byte strings with one more byte each compare by the prefix first. */
  lemma {:induction false} BytesBelowSnoc(p: seq<Byte>, q: seq<Byte>, x: Byte, y: Byte)
    requires |p| == |q|
    ensures BytesBelow(p + [x], q + [y]) <==> BytesBelow(p, q) || (p == q && x < y)
  {
    if p != [] {
      assert (p + [x])[1..] == p[1..] + [x];
      assert (q + [y])[1..] == q[1..] + [y];
      BytesBelowSnoc(p[1..], q[1..], x, y);
      assert p == [p[0]] + p[1..] && q == [q[0]] + q[1..];
    }
  }

  /** Big-endian bytes of equal width compare as the numbers they encode. */
  lemma {:induction false} BeBytesOrder(u: nat, v: nat, n: nat)
    requires u < Pow256(n) && v < Pow256(n)
    ensures BytesBelow(BeBytes(u, n), BeBytes(v, n)) <==> u < v
    ensures BeBytes(u, n) == BeBytes(v, n) <==> u == v
  {
    if n > 0 {
      var pu, pv := BeBytes(u / 256, n - 1), BeBytes(v / 256, n - 1);
      assert u / 256 < Pow256(n - 1) && v / 256 < Pow256(n - 1);
      BeBytesOrder(u / 256, v / 256, n - 1);
      BytesBelowSnoc(pu, pv, u % 256, v % 256);
      if BeBytes(u, n) == BeBytes(v, n) {
        assert (pu + [u % 256])[..n - 1] == pu && (pv + [v % 256])[..n - 1] == pv;
        assert (pu + [u % 256])[n - 1] == u % 256 && (pv + [v % 256])[n - 1] == v % 256;
      }
    }
  }

  /**
   * Comparing the 8 key bytes of two OIDs as the store does orders them as unsigned
   * 64-bit numbers, and distinct OIDs have distinct key bytes.
   */
  lemma OidKeyOrder(x: Int64, y: Int64)
    ensures BytesBelow(OidKeyBytes(x), OidKeyBytes(y)) <==> UnsignedOid(x) < UnsignedOid(y)
    ensures OidKeyBytes(x) == OidKeyBytes(y) <==> x == y
  {
    assert Pow256(8) == TWO_64;
    BeBytesOrder(UnsignedOid(x), UnsignedOid(y), 8);
  }

  /**
   * The range scan from (pid, startOid) that keeps to the prefix pid: keys compare as
   * unsigned bytes, so a 16-byte key follows the 12-byte search key exactly when its
   * OID bytes are not below startOid's.
   */
  predicate InRange(k: Key, pid: Int32, startOid: Int64) {
    k.pid == pid && UnsignedOid(k.oid) >= UnsignedOid(startOid)
  }

  /** A record the sweep deletes: in range, and its trailing int negates to rid. */
  predicate Doomed(k: Key, pid: Int32, startOid: Int64, rid: Int32) {
    InRange(k, pid, startOid) && Neg32(k.negRid) == rid
  }

  /**
   * A record is in the range scan exactly when its key starts with pid's bytes and its
   * OID bytes are not below startOid's, so that the 16-byte key is not below the 12-byte
   * search key.
   */
  lemma InRangeByKeyBytes(k: Key, pid: Int32, startOid: Int64)
    ensures InRange(k, pid, startOid) <==> k.pid == pid && !BytesBelow(OidKeyBytes(k.oid), OidKeyBytes(startOid))
  {
    OidKeyOrder(k.oid, startOid);
  }

  /** What one rollback looks at: the start OIDs and the aborted project and revision ids. */
  datatype Sweep = Sweep(startOids: map<EClass, Int64>, pid: Int32, rid: Int32)

  /**
   * The key-value store as the rollback sees it: a key set per class table, which
   * tables are transactional, and which table accesses raise a database exception
   * (caught and logged by the sweep, which then carries on).
   */
  datatype StoreConfig = StoreConfig(transactional: set<EClass>, failing: set<EClass>)

  /** A table swept once the classes in done have been handled. */
  predicate Swept(cfg: StoreConfig, sw: Sweep, done: set<EClass>, c: EClass) {
    c in done && c in sw.startOids && c !in cfg.transactional && c !in cfg.failing
  }

  function Survivors(keys: set<Key>, sw: Sweep, startOid: Int64): set<Key> {
    set k | k in keys && !Doomed(k, sw.pid, startOid, sw.rid)
  }

  function DoomedKeys(keys: set<Key>, sw: Sweep, startOid: Int64): set<Key> {
    set k | k in keys && Doomed(k, sw.pid, startOid, sw.rid)
  }

  /** The tables after the classes in done have been swept. */
  function SweptTables(tables: map<EClass, set<Key>>, cfg: StoreConfig, sw: Sweep, done: set<EClass>)
    : map<EClass, set<Key>>
  {
    map c | c in tables ::
      if Swept(cfg, sw, done, c) then Survivors(tables[c], sw, sw.startOids[c]) else tables[c]
  }

  /** The records deleted once the classes in done have been swept, as (class, key) pairs. */
  function Deletions(tables: map<EClass, set<Key>>, cfg: StoreConfig, sw: Sweep, done: set<EClass>)
    : set<(EClass, Key)>
  {
    set c, k | c in tables && Swept(cfg, sw, done, c) && k in tables[c] &&
      Doomed(k, sw.pid, sw.startOids[c], sw.rid) :: (c, k)
  }

  /** The whole rollback: every class with a start OID. */
  function RolledBack(tables: map<EClass, set<Key>>, cfg: StoreConfig, sw: Sweep): map<EClass, set<Key>> {
    SweptTables(tables, cfg, sw, sw.startOids.Keys)
  }

  /**
   * A record stays exactly when it is not swept: its table is not a non-transactional,
   * accessible table of a class with a start OID, or its key is outside the range or
   * carries another revision id. No table appears or disappears.
   */
  lemma RolledBackExactly(tables: map<EClass, set<Key>>, cfg: StoreConfig, sw: Sweep)
    ensures RolledBack(tables, cfg, sw).Keys == tables.Keys
    ensures forall c, k :: c in tables && k in tables[c] ==>
      (k in RolledBack(tables, cfg, sw)[c] <==>
        !(Swept(cfg, sw, sw.startOids.Keys, c) && Doomed(k, sw.pid, sw.startOids[c], sw.rid)))
    ensures forall c :: c in tables ==> RolledBack(tables, cfg, sw)[c] <= tables[c]
    ensures forall c :: c in tables && !Swept(cfg, sw, sw.startOids.Keys, c) ==>
      RolledBack(tables, cfg, sw)[c] == tables[c]
  {
  }

  /** A second rollback of the same revision changes nothing and deletes nothing. */
  lemma RollbackIdempotent(tables: map<EClass, set<Key>>, cfg: StoreConfig, sw: Sweep)
    ensures RolledBack(RolledBack(tables, cfg, sw), cfg, sw) == RolledBack(tables, cfg, sw)
    ensures Deletions(RolledBack(tables, cfg, sw), cfg, sw, sw.startOids.Keys) == {}
  {
    var once := RolledBack(tables, cfg, sw);
    forall c | c in once && Swept(cfg, sw, sw.startOids.Keys, c)
      ensures Survivors(once[c], sw, sw.startOids[c]) == once[c]
    {
    }
  }

  /** Pairing the keys of one table with its class keeps their number. */
  lemma {:induction false} PairCount(c: EClass, s: set<Key>)
    ensures |set k | k in s :: (c, k)| == |s|
    decreases |s|
  {
    if s != {} {
      NonEmptyHasElement(s);
      var k0 :| k0 in s;
      PairCount(c, s - {k0});
      assert (set k | k in s :: (c, k)) == (set k | k in s - {k0} :: (c, k)) + {(c, k0)};
    }
  }

  /** The records one swept class adds to the deletions, as pairs. */
  function ClassDeletions(tables: map<EClass, set<Key>>, cfg: StoreConfig, sw: Sweep, done: set<EClass>, c: EClass)
    : set<(EClass, Key)>
    requires c in sw.startOids
  {
    if c in tables && Swept(cfg, sw, done + {c}, c)
    then set k | k in DoomedKeys(tables[c], sw, sw.startOids[c]) :: (c, k) else {}
  }

  lemma DeletionsStep(tables: map<EClass, set<Key>>, cfg: StoreConfig, sw: Sweep, done: set<EClass>, c: EClass)
    requires c in sw.startOids && c !in done
    ensures Deletions(tables, cfg, sw, done + {c}) ==
      Deletions(tables, cfg, sw, done) + ClassDeletions(tables, cfg, sw, done, c)
    ensures Deletions(tables, cfg, sw, done) !! ClassDeletions(tables, cfg, sw, done, c)
  {
  }

  /** Sweeping one more class adds its table's doomed records to the deletions. */
  lemma SweepStep(tables: map<EClass, set<Key>>, cfg: StoreConfig, sw: Sweep, done: set<EClass>, c: EClass)
    requires c in sw.startOids && c !in done
    ensures c in tables && Swept(cfg, sw, done + {c}, c) ==>
      |Deletions(tables, cfg, sw, done + {c})| ==
        |Deletions(tables, cfg, sw, done)| + |DoomedKeys(tables[c], sw, sw.startOids[c])|
    ensures !(c in tables && Swept(cfg, sw, done + {c}, c)) ==>
      Deletions(tables, cfg, sw, done + {c}) == Deletions(tables, cfg, sw, done)
  {
    DeletionsStep(tables, cfg, sw, done, c);
    if c in tables && Swept(cfg, sw, done + {c}, c) {
      PairCount(c, DoomedKeys(tables[c], sw, sw.startOids[c]));
    }
  }

  lemma SweptTablesStep(tables: map<EClass, set<Key>>, cfg: StoreConfig, sw: Sweep, done: set<EClass>, c: EClass)
    requires c in sw.startOids && c !in done
    ensures var now := SweptTables(tables, cfg, sw, done);
      SweptTables(tables, cfg, sw, done + {c}) ==
        if c in tables && c !in cfg.transactional && c !in cfg.failing
        then now[c := Survivors(now[c], sw, sw.startOids[c])] else now
    ensures c in tables ==> SweptTables(tables, cfg, sw, done)[c] == tables[c]
  {
  }

  /** The key-value store's tables, updated in place by deletes. */
  class KeyValueStore {
    var tables: map<EClass, set<Key>>
    const config: StoreConfig

    constructor (tables: map<EClass, set<Key>>, config: StoreConfig)
      ensures this.tables == tables && this.config == config
    {
      this.tables := tables;
      this.config := config;
    }

    /** isTransactional */
    predicate IsTransactional(c: EClass) {
      c in config.transactional
    }

    /** delete: removes one record of a table. */
    method Delete(c: EClass, k: Key)
      requires c in tables
      modifies this
      ensures tables == old(tables)[c := old(tables)[c] - {k}]
    {
      tables := tables[c := tables[c] - {k}];
    }
  }

  /**
   * One table's sweep: walk the keys of the range scan from (pid, startOid), delete the
   * ones whose trailing int negates to rid, and count them.
   */
  method SweepTable(kv: KeyValueStore, c: EClass, startOid: Int64, sw: Sweep) returns (deleted: nat)
    requires c in kv.tables
    modifies kv
    ensures kv.tables == old(kv.tables)[c := Survivors(old(kv.tables)[c], sw, startOid)]
    ensures deleted == |DoomedKeys(old(kv.tables)[c], sw, startOid)|
  {
    ghost var original := kv.tables[c];
    var pending := set k | k in kv.tables[c] && InRange(k, sw.pid, startOid);
    ghost var removed: set<Key> := {};
    assert original - removed == original;
    assert kv.tables == old(kv.tables)[c := original];
    deleted := 0;
    while pending != {}
      invariant pending <= original && removed <= original && pending !! removed
      invariant forall k :: k in pending ==> InRange(k, sw.pid, startOid)
      invariant forall k :: k in removed ==> Doomed(k, sw.pid, startOid, sw.rid)
      invariant forall k :: k in original && Doomed(k, sw.pid, startOid, sw.rid) ==> k in pending || k in removed
      invariant kv.tables == old(kv.tables)[c := original - removed]
      invariant deleted == |removed|
      decreases pending
    {
      var key := Pick(pending);
      var keyRid := Neg32(key.negRid);
      if keyRid == sw.rid {
        kv.Delete(c, key);
        assert (original - removed) - {key} == original - (removed + {key});
        removed := removed + {key};
        deleted := deleted + 1;
      }
      pending := pending - {key};
    }
    assert removed == DoomedKeys(original, sw, startOid);
    assert original - removed == Survivors(original, sw, startOid);
  }

  /**
   * The ids rollback reads from newRevision: its project's id and its rid. newRevision is
   * null (None) until execute has created the revision.
   */
  datatype NewRevision = NewRevision(pid: Int32, rid: Int32)

  /**
   * rollback: the ids of newRevision are read first, so a null newRevision is a
   * NullPointerException; no start OIDs means no objects were written; otherwise every
   * class with a start OID whose table is not transactional is swept, a failing table
   * access is skipped, and the number of deleted records is the result (the count the
   * source logs).
   */
  method Rollback(kv: KeyValueStore, newRevision: Option<NewRevision>, startOids: Option<map<EClass, Int64>>)
    returns (r: Result<nat, Exception>)
    modifies kv
    ensures newRevision.None? ==> r == Failure(NullPointerException) && kv.tables == old(kv.tables)
    ensures newRevision.Some? && startOids.None? ==>
      r == Failure(BimserverDatabaseException(NoObjectsChanged)) && kv.tables == old(kv.tables)
    ensures newRevision.Some? && startOids.Some? ==>
      var sw := Sweep(startOids.value, newRevision.value.pid, newRevision.value.rid);
      r.Success? &&
      kv.tables == RolledBack(old(kv.tables), kv.config, sw) &&
      r.value == |Deletions(old(kv.tables), kv.config, sw, sw.startOids.Keys)|
  {
    if newRevision.None? {
      return Failure(NullPointerException);
    }
    var pid := newRevision.value.pid;
    var rid := newRevision.value.rid;
    if startOids.None? {
      return Failure(BimserverDatabaseException(NoObjectsChanged));
    }
    var sw := Sweep(startOids.value, pid, rid);
    ghost var original := kv.tables;
    var deleted := 0;
    var pending := sw.startOids.Keys;
    ghost var done: set<EClass> := {};
    assert SweptTables(original, kv.config, sw, done) == original;
    while pending != {}
      invariant pending <= sw.startOids.Keys && done == sw.startOids.Keys - pending
      invariant kv.tables == SweptTables(original, kv.config, sw, done)
      invariant deleted == |Deletions(original, kv.config, sw, done)|
      decreases pending
    {
      var c := Pick(pending);
      SweepStep(original, kv.config, sw, done, c);
      SweptTablesStep(original, kv.config, sw, done, c);
      if c in kv.tables && !kv.IsTransactional(c) && c !in kv.config.failing {
        var n := SweepTable(kv, c, sw.startOids[c], sw);
        deleted := deleted + n;
      }
      done := done + {c};
      pending := pending - {c};
    }
    assert done == sw.startOids.Keys;
    r := Success(deleted);
  }
}
