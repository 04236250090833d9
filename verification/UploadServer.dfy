/**
 * The running process's access to the upload tree and the tables: single file operations and transactions, each of
 * which may fail. For every state that ever reaches the disk, `log` records what a crash right then would leave to be
 * recovered.
 */
module UploadServers {
  import opened Wrappers
  import opened StoredPaths
  import opened Records
  import opened UploadStore

  /** Contention is the one error a transaction is run again for. */
  datatype Error = NoError | Contention | DestinationExists | QuotaExceeded | Failed

  /** A token no used one equals. */
  method Unused(used: set<string>) returns (token: string)
    ensures Plain(token) && token !in used
  {
    var rest, bound := used, 3;
    while rest != {}
      invariant rest <= used && bound >= 3
      invariant forall s | s in used - rest :: |s| < bound
    {
      var s :| s in rest;
      rest, bound := rest - {s}, if |s| < bound then bound else |s| + 1;
    }
    token := seq(bound, _ => 'a');
  }

  /** Random tokens are modelled by what they are relied on for: a token nothing in the store carries yet. */
  ghost predicate Fresh(st: Store, token: string) {
    && Plain(token)
    && (forall op | op in st.operations :: op.token != token)
    && (forall place | place in st.disk :: !Under(place.path, token))
    && (forall f | f in st.db.files :: !Under(st.db.files[f].path, token))
  }

  class Server {
    var db: Db
    var disk: map<Place, Content>
    var operations: set<Operation>
    var areas: set<Area>

    /** When set, no file operation fails, and a transaction fails only for contention. */
    const reliable: bool

    ghost var log: seq<Crash>

    // How many statements and commits have met another connection's lock.
    ghost var locks: nat

    ghost function Now(): Store
      reads this`db, this`disk, this`operations, this`areas
    {
      Store(db, disk, operations, areas)
    }

    ghost predicate Valid()
      reads this`db, this`disk, this`operations, this`areas, this`log
    {
      log != [] && log[|log| - 1] == AfterCrash(Now())
    }

    /** A crash at any point since entry n leaves the same to be recovered. */
    ghost predicate KeptSince(n: nat, crash: Crash)
      reads this`log
    {
      n <= |log| && forall k | n <= k < |log| :: log[k] == crash
    }

    constructor (db: Db, disk: map<Place, Content>, operations: set<Operation>, areas: set<Area>, reliable: bool)
      ensures Valid() && Now() == Store(db, disk, operations, areas) && this.reliable == reliable
    {
      this.db, this.disk, this.operations, this.areas := db, disk, operations, areas;
      this.reliable := reliable;
      this.log := [AfterCrash(Store(db, disk, operations, areas))];
      this.locks := 0;
    }

    /** Any single file operation, look-up or wait that may fail. */
    method Works() returns (ok: bool)
      ensures reliable ==> ok
    {
      ok := *;
      ok := ok || reliable;
    }

    /** A statement of an open transaction: it succeeds, meets a lock, or fails for good. */
    method Statement() returns (err: Error)
      modifies this`locks
      ensures err == NoError || err == Contention || err == Failed
      ensures locks == old(locks) + if err == Contention then 1 else 0
      ensures reliable ==> err != Failed
    {
      var fate: int := *;
      err := if fate == 0 then Contention else if fate == 1 && !reliable then Failed else NoError;
      if err == Contention {
        locks := locks + 1;
      }
    }

    /** A query outside any transaction: readers do not wait for the writer's lock. */
    method Query() returns (err: Error)
      ensures err == NoError || err == Failed
      ensures reliable ==> err == NoError
    {
      var ok := Works();
      err := if ok then NoError else Failed;
    }

    method Token() returns (token: string)
      ensures Fresh(Now(), token)
    {
      token := Unused((set op | op in operations :: op.token)
        + (set place | place in disk && |place.path| > 1 :: place.path[1])
        + (set f | f in db.files && |db.files[f].path| > 1 :: db.files[f].path[1]));
    }

    method Rename(from: Place, to: Place) returns (ok: bool)
      requires Valid() && from in disk
      modifies this`disk, this`log
      ensures Valid() && (reliable ==> ok)
      ensures if ok then disk == Moved(old(disk), from, to) && log == old(log) + [AfterCrash(Now())]
              else disk == old(disk) && log == old(log)
    {
      ok := Works();
      if ok {
        disk := Moved(disk, from, to);
        log := log + [AfterCrash(Now())];
      }
    }

    /** Opening a new file for writing: refused when the name is taken. */
    method CreateFile(place: Place) returns (ok: bool)
      requires Valid()
      modifies this`disk, this`log
      ensures Valid() && (ok ==> place !in old(disk)) && (reliable && place !in old(disk) ==> ok)
      ensures if ok then disk == old(disk)[place := Partial] && log == old(log) + [AfterCrash(Now())]
              else disk == old(disk) && log == old(log)
    {
      ok := Works();
      ok := ok && place !in disk;
      if ok {
        disk := disk[place := Partial];
        log := log + [AfterCrash(Now())];
      }
    }

    /** Copying the body into an open file and closing it; when it fails, what was written so far stays. */
    method WriteFile(place: Place, bytes: seq<bv8>) returns (ok: bool)
      requires Valid() && place in disk
      modifies this`disk, this`log
      ensures Valid() && (reliable ==> ok)
      ensures if ok then disk == old(disk)[place := Complete(bytes)] && log == old(log) + [AfterCrash(Now())]
              else disk == old(disk) && log == old(log)
    {
      ok := Works();
      if ok {
        disk := disk[place := Complete(bytes)];
        log := log + [AfterCrash(Now())];
      }
    }

    method RemoveFile(place: Place) returns (ok: bool)
      requires Valid()
      modifies this`disk, this`log
      ensures Valid() && (reliable ==> ok)
      ensures if ok then disk == old(disk) - {place} && log == old(log) + [AfterCrash(Now())]
              else disk == old(disk) && log == old(log)
    {
      ok := Works();
      if ok {
        disk := disk - {place};
        log := log + [AfterCrash(Now())];
      }
    }

    method MakeOperation(operation: Operation) returns (ok: bool)
      requires Valid()
      modifies this`operations, this`areas, this`log
      ensures Valid() && (reliable ==> ok)
      ensures if ok then operations == old(operations) + {operation} && areas == old(areas) + {operation.area}
                && log == old(log) + [AfterCrash(Now())]
              else operations == old(operations) && areas == old(areas) && log == old(log)
    {
      ok := Works();
      if ok {
        operations, areas := operations + {operation}, areas + {operation.area};
        log := log + [AfterCrash(Now())];
      }
    }

    /** Removing the directory of an operation that holds no file any more. */
    method RemoveDirectory(operation: Operation) returns (ok: bool)
      requires Valid()
      modifies this`operations, this`log
      ensures Valid() && (reliable ==> ok)
      ensures if ok then operations == old(operations) - {operation} && log == old(log) + [AfterCrash(Now())]
              else operations == old(operations) && log == old(log)
    {
      ok := Works();
      if ok {
        operations := operations - {operation};
        log := log + [AfterCrash(Now())];
      }
    }

    /** os.Root.Remove on a staging root: refused while an operation directory is in it. */
    method RemoveArea(area: Area) returns (ok: bool)
      requires Valid()
      modifies this`areas, this`log
      ensures Valid()
      ensures ok ==> forall op | op in operations :: op.area != area
      ensures reliable && (forall op | op in operations :: op.area != area) ==> ok
      ensures if ok then areas == old(areas) - {area} && log == old(log) + [AfterCrash(Now())]
              else areas == old(areas) && log == old(log)
    {
      ok := Works();
      ok := ok && forall op | op in operations :: op.area != area;
      if ok {
        areas := areas - {area};
        log := log + [AfterCrash(Now())];
      }
    }

    method Commit(tx: Db) returns (err: Error)
      requires Valid()
      modifies this`db, this`log, this`locks
      ensures Valid()
      ensures err == NoError || err == Contention || err == Failed
      ensures locks == old(locks) + if err == Contention then 1 else 0
      ensures reliable ==> err != Failed
      ensures if err == NoError then db == tx && log == old(log) + [AfterCrash(Now())]
              else db == old(db) && log == old(log)
    {
      err := Statement();
      if err == NoError {
        db := tx;
        log := log + [AfterCrash(Now())];
      }
    }
  }
}
