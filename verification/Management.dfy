/** Deleting forms and submissions: rows in a retried transaction, their uploads beside it. */
module Management {
  import opened Wrappers
  import opened StoredPaths
  import opened Records
  import opened UploadStore
  import opened UploadServers
  import opened Dbtxn
  import opened UploadDeletions

  /** The storage paths of the rows a delete is about to remove, as they are read inside the transaction. */
  method ListFiles(tx: Db, target: Target) returns (values: seq<Option<RawPath>>)
    ensures forall f | f in OwnedFiles(tx, target) :: Some(RawPath(false, tx.files[f].path)) in values
    ensures forall value | value in values :: exists f ::
              f in OwnedFiles(tx, target) && value == Some(RawPath(false, tx.files[f].path))
  {
    var rest := OwnedFiles(tx, target);
    values := [];
    while rest != {}
      invariant rest <= OwnedFiles(tx, target)
      invariant forall f | f in OwnedFiles(tx, target) - rest :: Some(RawPath(false, tx.files[f].path)) in values
      invariant forall value | value in values :: exists f ::
                f in OwnedFiles(tx, target) && value == Some(RawPath(false, tx.files[f].path))
    {
      var f :| f in rest;
      values, rest := values + [Some(RawPath(false, tx.files[f].path))], rest - {f};
    }
  }

  /** One delete statement of an open transaction. */
  method Execute(s: Server, tx: Db, deleted: Db) returns (err: Error, tx': Db)
    modifies s`locks
    ensures s.locks == old(s.locks) + if err == Contention then 1 else 0
    ensures err == NoError || err == Contention || err == Failed
    ensures tx' == if err == NoError then deleted else tx
    ensures s.reliable ==> err != Failed
  {
    err := s.Statement();
    tx' := if err == NoError then deleted else tx;
  }

  function WithoutEvents(events: map<nat, EventRow>, owned: set<nat>, webhook: bool): map<nat, EventRow> {
    map e | e in events && !(events[e].channel.Webhook? == webhook && events[e].submission in owned) :: events[e]
  }

  /** The delete statements, one table after another; any of them may fail. */
  method DeleteRecords(s: Server, tx: Db, target: Target) returns (err: Error, tx': Db)
    modifies s`locks
    ensures s.locks == old(s.locks) + if err == Contention then 1 else 0
    ensures err == NoError || err == Contention || err == Failed
    ensures err == NoError ==> tx' == Deleted(tx, target)
    ensures s.reliable && Exists(tx, target) ==> err != Failed
  {
    var owned := OwnedSubmissions(tx, target);
    err, tx' := DeleteEvents(s, tx, owned);
    if err != NoError {
      return;
    }
    err, tx' := Execute(s, tx', tx'.(files := tx'.files - OwnedFiles(tx, target)));
    if err != NoError {
      return;
    }
    err, tx' := Execute(s, tx', tx'.(submissions := tx'.submissions - owned));
    if err != NoError {
      return;
    }
    if target.WholeForm? {
      err, tx' := DeleteForm(s, tx', target);
      if err != NoError {
        return;
      }
    }
    if !Exists(tx, target) {
      err := Failed;
      return;
    }
    AllDeleted(tx, target);
  }

  /** One statement after the other they leave the tables without the target. */
  lemma AllDeleted(tx: Db, target: Target)
    ensures
      var owned := OwnedSubmissions(tx, target);
      var rest := tx.(events := map e | e in tx.events && tx.events[e].submission !in owned :: tx.events[e],
                      files := tx.files - OwnedFiles(tx, target), submissions := tx.submissions - owned);
      Deleted(tx, target) ==
      if target.OneSubmission? then rest
      else rest.(forms := tx.forms - {target.form},
                 emailDeliveries := DeliveriesLeft(tx.emailDeliveries, target),
                 webhookDeliveries := DeliveriesLeft(tx.webhookDeliveries, target))
  {
    assert target.OneSubmission? ==> tx.emailDeliveries == DeliveriesLeft(tx.emailDeliveries, target);
    assert target.OneSubmission? ==> tx.webhookDeliveries == DeliveriesLeft(tx.webhookDeliveries, target);
  }

  method DeleteEvents(s: Server, tx: Db, owned: set<nat>) returns (err: Error, tx': Db)
    modifies s`locks
    ensures s.locks == old(s.locks) + if err == Contention then 1 else 0
    ensures err == NoError || err == Contention || err == Failed
    ensures s.reliable ==> err != Failed
    ensures err == NoError ==>
              tx' == tx.(events := map e | e in tx.events && tx.events[e].submission !in owned :: tx.events[e])
  {
    err, tx' := Execute(s, tx, tx.(events := WithoutEvents(tx.events, owned, true)));
    if err != NoError {
      return;
    }
    err, tx' := Execute(s, tx', tx'.(events := WithoutEvents(tx'.events, owned, false)));
    assert err == NoError ==>
      tx'.events == map e | e in tx.events && tx.events[e].submission !in owned :: tx.events[e];
  }

  /** The statements on the form's own rows. */
  method DeleteForm(s: Server, tx: Db, target: Target) returns (err: Error, tx': Db)
    requires target.WholeForm?
    modifies s`locks
    ensures s.locks == old(s.locks) + if err == Contention then 1 else 0
    ensures err == NoError || err == Contention || err == Failed
    ensures s.reliable ==> err != Failed
    ensures err == NoError ==>
              tx' == tx.(forms := tx.forms - {target.form},
                         emailDeliveries := DeliveriesLeft(tx.emailDeliveries, target),
                         webhookDeliveries := DeliveriesLeft(tx.webhookDeliveries, target))
  {
    err, tx' := Execute(s, tx, tx.(emailDeliveries := DeliveriesLeft(tx.emailDeliveries, target)));
    if err != NoError {
      return;
    }
    err, tx' := Execute(s, tx', tx'.(webhookDeliveries := DeliveriesLeft(tx'.webhookDeliveries, target)));
    if err != NoError {
      return;
    }
    err, tx' := Execute(s, tx', tx'.(forms := tx'.forms - {target.form}));
  }

  /**
   * What a delete still holds aside: `taken` is the tree as it was when everything was staged, and since then files
   * have only been put back or destroyed by the rows.
   */
  ghost predicate Holding(before: Store, taken: map<Place, Content>, now: Store, staged: Quarantine) {
    match staged.operation
    case None => now.disk == before.disk && now.operations == before.operations
    case Some(op) =>
      && op !in before.operations && now.operations == before.operations + {op}
      && Emptied(before.disk, op) && Staged(before.disk, taken, op, staged.files)
      && Progress(taken, now.disk, now.db, op)
  }

  ghost predicate Noted(now: Store, staged: Quarantine) {
    staged.operation.Some? ==> Covers(now.disk, staged.operation.value, staged.files)
  }

  lemma ProgressIsTransitive(a: map<Place, Content>, b: map<Place, Content>, c: map<Place, Content>, rows: Db,
                             operation: Operation)
    requires Progress(a, b, rows, operation) && Progress(b, c, rows, operation)
    ensures Progress(a, c, rows, operation)
  {
    forall place | place in c && !(place in a && c[place] == a[place]) ensures PutBack(a, c, rows, operation, place) {
      if place in b && c[place] == b[place] {
        assert PutBack(a, b, rows, operation, place);
      } else {
        assert PutBack(b, c, rows, operation, place);
      }
    }
    forall path | Slot(operation, path) in a
      ensures Slot(operation, path) in c || Home(path) in c || !Referenced(rows, path)
    {
      assert Slot(operation, path) in b || Home(path) in b || !Referenced(rows, path);
    }
  }

  /** Resolving what a delete holds leaves exactly what the rows say: all of it back, or all of it gone. */
  lemma FinishingHeld(before: Store, taken: map<Place, Content>, mid: Store, after: Store, op: Operation,
                      staged: Quarantine)
    requires Inv(before) && staged.operation == Some(op) && Holding(before, taken, mid, staged)
    requires Finished(mid.disk, after.disk, mid.db, op) && after.operations == mid.operations - {op}
    ensures after.disk == Pruned(before.disk, mid.db, staged.files) && after.operations == before.operations
    ensures mid.db == before.db ==> after.disk == before.disk
  {
    ProgressIsTransitive(taken, mid.disk, after.disk, mid.db, op);
    ResolvingStaged(before.disk, taken, after.disk, mid.db, op, staged.files);
    if mid.db == before.db {
      forall place | place in before.disk && place.Home? ensures Referenced(mid.db, place.path) {
        assert Home(place.path) in before.disk;
      }
    }
  }

  /** Undoing the attempt before, if there was one that staged anything. */
  method UndoEarlierAttempt(s: Server, staged: Quarantine, ghost before: Store, ghost taken: map<Place, Content>)
    returns (err: Error)
    requires s.Valid() && Inv(s.Now()) && Noted(s.Now(), staged)
    requires Inv(before) && before.db == s.db
    requires s.reliable ==> Holding(before, taken, s.Now(), staged)
    modifies s`disk, s`operations, s`log, s`locks
    ensures s.locks == old(s.locks) + if err == Contention then 1 else 0
    ensures s.Valid() && Inv(s.Now()) && AfterCrash(s.Now()) == old(AfterCrash(s.Now()))
    ensures old(s.log) <= s.log && s.KeptSince(old(|s.log|), old(AfterCrash(s.Now())))
    ensures err == NoError || err == Contention || err == Failed
    ensures s.reliable ==>
              err != Failed && Holding(before, taken, s.Now(), if err == NoError then Quarantine(None, []) else staged)
    ensures err != NoError ==> Noted(s.Now(), staged)
  {
    ghost var mid := s.Now();
    err := Finish(s, staged, s.db, true);
    if s.reliable && staged.operation.Some? {
      if err == NoError {
        FinishingHeld(before, taken, mid, s.Now(), staged.operation.value, staged);
      } else {
        ProgressIsTransitive(taken, mid.disk, s.disk, s.db, staged.operation.value);
      }
    }
  }

  /** One run of the transaction body. The quarantine of an earlier run comes in, the one of this run goes out. */
  method DeleteAttempt(s: Server, target: Target, earlier: Quarantine, ghost before: Store,
                       ghost taken: map<Place, Content>)
    returns (err: Error, staged: Quarantine, ghost taken': map<Place, Content>)
    requires s.Valid() && Inv(s.Now()) && Noted(s.Now(), earlier)
    requires Inv(before) && before.db == s.db
    requires s.reliable ==> Holding(before, taken, s.Now(), earlier)
    modifies s`db, s`disk, s`operations, s`areas, s`log, s`locks
    ensures s.locks == old(s.locks) + if err == Contention then 1 else 0
    ensures s.Valid() && Inv(s.Now()) && Noted(s.Now(), staged) && old(s.log) <= s.log
    ensures err == NoError || err == Contention || err == Failed
    ensures err == NoError ==>
              && s.db == Deleted(old(s.db), target)
              && AfterCrash(s.Now()) == Keeping(old(AfterCrash(s.Now())), s.db)
              && old(|s.log|) < |s.log| && forall k | old(|s.log|) <= k < |s.log| - 1 ::
                  s.log[k] == old(AfterCrash(s.Now()))
    ensures err != NoError ==>
              && s.db == old(s.db) && AfterCrash(s.Now()) == old(AfterCrash(s.Now()))
              && s.KeptSince(old(|s.log|), old(AfterCrash(s.Now())))
    ensures s.reliable ==> Holding(before, taken', s.Now(), staged)
    ensures s.reliable && err == NoError ==> HeldAre(before.db, target, before.disk, staged)
    ensures s.reliable && err == Failed ==> !Exists(old(s.db), target)
    ensures err == NoError ==> Exists(old(s.db), target)
  {
    staged, taken' := earlier, taken;
    err := s.Statement();
    if err != NoError {
      return;
    }
    err := UndoEarlierAttempt(s, staged, before, taken);
    if err != NoError {
      return;
    }
    staged := Quarantine(None, []);
    if !Exists(s.db, target) {
      err := Failed;
      return;
    }
    err, staged, taken' := StageAndDelete(s, target, before);
  }

  /** The quarantine holds the originals of the target's rows, all that were there. */
  ghost predicate HeldAre(rows: Db, target: Target, disk: map<Place, Content>, staged: Quarantine) {
    && (forall path | path in staged.files :: exists f :: f in OwnedFiles(rows, target) && rows.files[f].path == path)
    && (forall f | f in OwnedFiles(rows, target) && Home(rows.files[f].path) in disk ::
        rows.files[f].path in staged.files)
  }

  method StageOwned(s: Server, target: Target, ghost before: Store) returns (err: Error, staged: Quarantine)
    requires s.Valid() && Inv(s.Now())
    requires s.reliable ==> s.disk == before.disk && s.operations == before.operations && s.db == before.db
    modifies s`disk, s`operations, s`areas, s`log
    ensures s.Valid() && Inv(s.Now()) && AfterCrash(s.Now()) == old(AfterCrash(s.Now()))
    ensures old(s.log) <= s.log && s.KeptSince(old(|s.log|), old(AfterCrash(s.Now())))
    ensures err == NoError || err == Failed
    ensures Noted(s.Now(), staged)
    ensures err == NoError ==> forall f | f in OwnedFiles(s.db, target) :: Home(s.db.files[f].path) !in s.disk
    ensures s.reliable ==>
              && err == NoError
              && Holding(before, s.disk, s.Now(), staged)
              && HeldAre(before.db, target, before.disk, staged)
  {
    var values := ListFiles(s.db, target);
    forall f | f in OwnedFiles(s.db, target)
      ensures CleanStoredUploadPath(RawPath(false, s.db.files[f].path)) == Some(s.db.files[f].path)
    {
      StoredIsClean(s.db.files[f].path);
    }
    forall i | 0 <= i < |values|
      ensures values[i].Some? && exists f ::
                f in OwnedFiles(s.db, target) && CleanStoredUploadPath(values[i].value) == Some(s.db.files[f].path)
    {
      assert values[i] in values;
    }
    ghost var start := s.Now();
    err, staged := StageStoredFiles(s, values);
    if err != NoError {
      staged := Quarantine(None, []);
      return;
    }
    forall f | f in OwnedFiles(s.db, target) ensures Home(s.db.files[f].path) !in s.disk {
      assert Some(RawPath(false, s.db.files[f].path)) in values;
    }
    if staged.operation.Some? {
      StagedIsHeld(start.disk, s.disk, s.db, staged.operation.value, staged.files);
    }
  }

  lemma StagedIsHeld(before: map<Place, Content>, disk: map<Place, Content>, rows: Db, op: Operation, files: seq<Path>)
    requires Staged(before, disk, op, files)
    ensures Covers(disk, op, files) && Progress(disk, disk, rows, op)
    ensures forall path | Home(path) in before && path !in files :: Home(path) in disk
  {
    forall path | Slot(op, path) in disk ensures path in files {
      assert InOperation(Slot(op, path), op);
    }
  }

  method StageAndDelete(s: Server, target: Target, ghost before: Store)
    returns (err: Error, staged: Quarantine, ghost taken: map<Place, Content>)
    requires s.Valid() && Inv(s.Now()) && Exists(s.db, target)
    requires Inv(before) && before.db == s.db
    requires s.reliable ==> s.disk == before.disk && s.operations == before.operations
    modifies s`db, s`disk, s`operations, s`areas, s`log, s`locks
    ensures s.locks == old(s.locks) + if err == Contention then 1 else 0
    ensures s.Valid() && Inv(s.Now()) && Noted(s.Now(), staged) && old(s.log) <= s.log
    ensures err == NoError || err == Contention || err == Failed
    ensures err == NoError ==>
              && s.db == Deleted(old(s.db), target)
              && AfterCrash(s.Now()) == Keeping(old(AfterCrash(s.Now())), s.db)
              && old(|s.log|) < |s.log| && forall k | old(|s.log|) <= k < |s.log| - 1 ::
                  s.log[k] == old(AfterCrash(s.Now()))
    ensures err != NoError ==>
              && s.db == old(s.db) && AfterCrash(s.Now()) == old(AfterCrash(s.Now()))
              && s.KeptSince(old(|s.log|), old(AfterCrash(s.Now())))
    ensures s.reliable ==> err != Failed && Holding(before, taken, s.Now(), staged)
    ensures s.reliable && err == NoError ==> HeldAre(before.db, target, before.disk, staged)
  {
    err, staged := StageOwned(s, target, before);
    taken := s.disk;
    if err != NoError {
      return;
    }
    ghost var mid := s.Now();
    var tx;
    err, tx := DeleteRecords(s, s.db, target);
    if err != NoError {
      return;
    }
    err := s.Commit(tx);
    if err == NoError {
      CommittingDelete(mid, s.Now(), target);
    }
  }

  /** The tree without the originals that no row references. */
  ghost function ReferencedOnly(disk: map<Place, Content>, rows: Db): map<Place, Content> {
    map place | place in disk && (place.Slot? || Referenced(rows, place.path)) :: disk[place]
  }

  lemma PrunedAreTheOrphans(before: Store, target: Target, staged: Quarantine)
    requires Inv(before) && HeldAre(before.db, target, before.disk, staged)
    ensures Pruned(before.disk, Deleted(before.db, target), staged.files)
              == ReferencedOnly(before.disk, Deleted(before.db, target))
  {
    var rows := Deleted(before.db, target);
    forall place | place in before.disk && place.Home?
      ensures Referenced(rows, place.path) || place.path in staged.files
    {
      assert Home(place.path) in before.disk;
      var f :| f in before.db.files && before.db.files[f].path == place.path;
      assert f in rows.files ==> rows.files[f].path == place.path;
    }
    assert Pruned(before.disk, rows, staged.files).Keys == ReferencedOnly(before.disk, rows).Keys;
  }

  /** dbtxn.WithRetry around the transaction body: at most ten runs, and another run only after contention. */
  method DeleteWithRetry(s: Server, target: Target, ghost before: Store)
    returns (err: Error, staged: Quarantine, ghost taken: map<Place, Content>)
    requires s.Valid() && Inv(s.Now()) && before == s.Now()
    modifies s`db, s`disk, s`operations, s`areas, s`log, s`locks
    ensures s.Valid() && Inv(s.Now()) && Noted(s.Now(), staged) && old(s.log) <= s.log
    ensures err == NoError || err == Contention || err == Failed
    ensures old(s.locks) <= s.locks <= old(s.locks) + 10
    ensures err == Contention <==> s.locks == old(s.locks) + 10
    ensures err == NoError ==>
              && Exists(before.db, target) && s.db == Deleted(before.db, target)
              && AfterCrash(s.Now()) == Keeping(AfterCrash(before), s.db)
              && old(|s.log|) < |s.log| && forall k | old(|s.log|) <= k < |s.log| - 1 :: s.log[k] == AfterCrash(before)
    ensures err != NoError ==>
              && s.db == before.db && AfterCrash(s.Now()) == AfterCrash(before)
              && s.KeptSince(old(|s.log|), AfterCrash(before))
    ensures s.reliable ==> Holding(before, taken, s.Now(), staged)
    ensures s.reliable && err == NoError ==> HeldAre(before.db, target, before.disk, staged)
    ensures s.reliable && err == Failed ==> !Exists(before.db, target)
  {
    staged, taken, err := Quarantine(None, []), s.disk, Contention;
    for attempt := 1 to MAX_ATTEMPTS + 1
      invariant s.Valid() && Inv(s.Now()) && Noted(s.Now(), staged) && old(s.log) <= s.log
      invariant s.db == before.db && AfterCrash(s.Now()) == AfterCrash(before)
      invariant s.KeptSince(old(|s.log|), AfterCrash(before))
      invariant s.reliable ==> Holding(before, taken, s.Now(), staged)
      invariant err == Contention && s.locks == old(s.locks) + attempt - 1
    {
      err, staged, taken := DeleteAttempt(s, target, staged, before, taken);
      if err != Contention {
        return;
      }
      if attempt < MAX_ATTEMPTS {
        var waited := s.Works();
        if !waited {
          err := Failed;
          return;
        }
      }
    }
  }

  /**
   * Deletes a form or a submission with its uploads. Up to `point` a crash leaves everything to be recovered as it
   * was, from there on it leaves the target's rows and contents gone and all else as it was. When file operations
   * work, what exists is deleted, rows and files both, unless ten attempts in a row meet a lock; then both are as they
   * were.
   */
  method Delete(s: Server, target: Target) returns (deleteErr: Error, cleanupErr: Error, ghost point: nat)
    requires s.Valid() && Inv(s.Now())
    modifies s`db, s`disk, s`operations, s`areas, s`log, s`locks
    ensures s.Valid() && Inv(s.Now()) && old(s.log) <= s.log && old(|s.log|) <= point <= |s.log|
    ensures forall k | old(|s.log|) <= k < point :: s.log[k] == old(AfterCrash(s.Now()))
    ensures forall k | point <= k < |s.log| :: s.log[k] == Keeping(old(AfterCrash(s.Now())), Deleted(old(s.db), target))
    ensures deleteErr == NoError <==> point < |s.log|
    ensures deleteErr == NoError ==> Exists(old(s.db), target)
    ensures old(s.locks) <= s.locks <= old(s.locks) + 10
    ensures deleteErr == Contention <==> s.locks == old(s.locks) + 10
    ensures s.reliable && Exists(old(s.db), target) ==> (deleteErr == NoError <==> s.locks < old(s.locks) + 10)
    ensures s.db == if deleteErr == NoError then Deleted(old(s.db), target) else old(s.db)
    ensures s.reliable ==>
              && cleanupErr == NoError
              && (deleteErr == Failed ==> !Exists(old(s.db), target))
              && s.operations == old(s.operations)
              && s.disk == if deleteErr == NoError then ReferencedOnly(old(s.disk), s.db) else old(s.disk)
  {
    ghost var before, taken := s.Now(), s.disk;
    var staged;
    deleteErr, staged, taken := DeleteWithRetry(s, target, before);
    point := |s.log| - 1;
    ghost var mid := s.Now();
    cleanupErr := Finish(s, staged, s.db, false);
    if deleteErr != NoError {
      point := |s.log|;
    }
    if s.reliable {
      if staged.operation.Some? {
        FinishingHeld(before, taken, mid, s.Now(), staged.operation.value, staged);
      }
      if deleteErr == NoError {
        PrunedAreTheOrphans(before, target, staged);
      }
    }
  }
}
