/**
 The Kubernetes API server as an optimistic-concurrency store. Every committed write takes the
 next value of one global revision, so a recreated object never reuses an old version.
 */
module ApiServer {

  datatype Stored<+T> = Stored(uid: nat, version: nat, value: T)

  datatype Db<!K, +T> = Db(revision: nat, objects: map<K, Stored<T>>)

  predicate Valid<K, T>(db: Db<K, T>) {
    forall k <- db.objects :: db.objects[k].uid <= db.objects[k].version <= db.revision
  }

  function Create<K, T>(db: Db<K, T>, k: K, value: T): Db<K, T>
    requires k !in db.objects
  {
    var version := db.revision + 1;
    Db(version, db.objects[k := Stored(version, version, value)])
  }

  /** An unconditional rewrite, used by writers that always act on the current object. */
  function Rewrite<K, T>(db: Db<K, T>, k: K, value: T): Db<K, T>
    requires k in db.objects
  {
    var version := db.revision + 1;
    Db(version, db.objects[k := Stored(db.objects[k].uid, version, value)])
  }

  function Delete<K, T>(db: Db<K, T>, k: K): Db<K, T> {
    Db(db.revision + 1, db.objects - {k})
  }

  /** The test the server applies to a write that carries the resource version of `snapshot`. */
  predicate Matches<K, T>(db: Db<K, T>, k: K, snapshot: Stored<T>) {
    k in db.objects && db.objects[k].version == snapshot.version
  }

  /** `snapshot` was read from key `k` at some point: its version is not in the future, and if it is still current nothing changed. */
  predicate Snapshot<K, T(==)>(db: Db<K, T>, k: K, snapshot: Stored<T>) {
    snapshot.version <= db.revision && (Matches(db, k, snapshot) ==> db.objects[k] == snapshot)
  }

  /** What any sequence of committed writes does to a database. */
  predicate Evolves<K, T(==)>(before: Db<K, T>, after: Db<K, T>) {
    && before.revision <= after.revision
    && forall k <- after.objects ::
         || (k in before.objects && after.objects[k] == before.objects[k])
         || (after.objects[k].version > before.revision
             && (after.objects[k].uid > before.revision
                 || (k in before.objects && after.objects[k].uid == before.objects[k].uid)))
  }

  lemma Rewriting<K, T>(db: Db<K, T>, k: K, value: T)
    requires Valid(db) && k in db.objects
    ensures Valid(Rewrite(db, k, value)) && Evolves(db, Rewrite(db, k, value))
  {
  }

  /** Snapshots stay faithful however the database evolves; a matching version therefore means an unchanged object. */
  lemma SnapshotSurvives<K, T>(before: Db<K, T>, after: Db<K, T>, k: K, snapshot: Stored<T>)
    requires Snapshot(before, k, snapshot) && Evolves(before, after)
    ensures Snapshot(after, k, snapshot)
  {
  }
}
