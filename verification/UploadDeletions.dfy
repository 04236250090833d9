/** Setting uploads aside, putting them back or destroying them, and recovering what a crash interrupted. */
module UploadDeletions {
  import opened Wrappers
  import opened StoredPaths
  import opened Records
  import opened UploadStore
  import opened UploadServers

  /** The process's own note of what it staged; a crash loses it. */
  datatype Quarantine = Quarantine(operation: Option<Operation>, files: seq<Path>)

  ghost predicate Covers(disk: map<Place, Content>, operation: Operation, files: seq<Path>) {
    forall path {:trigger Slot(operation, path) in disk} :: Slot(operation, path) in disk ==> path in files
  }

  ghost predicate Within(disk: map<Place, Content>, operation: Operation, paths: set<Path>) {
    forall path {:trigger Slot(operation, path) in disk} :: Slot(operation, path) in disk ==> path in paths
  }

  ghost function PathSet(paths: seq<Path>, n: nat): set<Path>
    requires n <= |paths|
  {
    set path | path in paths[..n]
  }

  lemma OneMorePath(paths: seq<Path>, n: nat)
    requires n < |paths|
    ensures PathSet(paths, n + 1) == PathSet(paths, n) + {paths[n]}
  {
    assert paths[..n + 1] == paths[..n] + [paths[n]];
  }

  lemma AllPaths(paths: seq<Path>)
    ensures forall path :: path in paths <==> path in PathSet(paths, |paths|)
  {
    assert paths[..|paths|] == paths;
  }

  /**
   * Part of an operation's files are resolved: referenced ones are back at their paths, others are gone, and
   * nothing outside the operation has changed.
   */
  ghost predicate Progress(before: map<Place, Content>, after: map<Place, Content>, rows: Db, operation: Operation) {
    && (forall place {:trigger place in before} | place in before && !InOperation(place, operation) ::
          place in after && after[place] == before[place])
    && (forall place {:trigger place in after} | place in after ::
          || (place in before && after[place] == before[place])
          || PutBack(before, after, rows, operation, place))
    && (forall path {:trigger Slot(operation, path) in before} | Slot(operation, path) in before ::
          Slot(operation, path) in after || Home(path) in after || !Referenced(rows, path))
  }

  ghost predicate PutBack(before: map<Place, Content>, after: map<Place, Content>, rows: Db, operation: Operation,
                          place: Place) {
    && place.Home? && Slot(operation, place.path) in before && Referenced(rows, place.path)
    && place in after && after[place] == before[Slot(operation, place.path)]
  }

  ghost predicate Emptied(disk: map<Place, Content>, operation: Operation) {
    forall path {:trigger Slot(operation, path) in disk} :: Slot(operation, path) !in disk
  }

  /** All of them are. */
  ghost predicate Finished(before: map<Place, Content>, after: map<Place, Content>, rows: Db, operation: Operation) {
    Progress(before, after, rows, operation) && Emptied(after, operation)
  }

  lemma PuttingBackIsProgress(before: map<Place, Content>, disk: map<Place, Content>, rows: Db, operation: Operation,
                              path: Path)
    requires Progress(before, disk, rows, operation)
    requires Slot(operation, path) in disk && Home(path) !in disk && Referenced(rows, path)
    ensures Progress(before, Moved(disk, Slot(operation, path), Home(path)), rows, operation)
  {
    var after := Moved(disk, Slot(operation, path), Home(path));
    assert Slot(operation, path) in before && disk[Slot(operation, path)] == before[Slot(operation, path)];
    assert PutBack(before, after, rows, operation, Home(path));
    forall place | place in after && !(place in before && after[place] == before[place])
      ensures PutBack(before, after, rows, operation, place)
    {
      if place != Home(path) {
        assert place in disk && PutBack(before, disk, rows, operation, place);
      }
    }
  }

  lemma DestroyingIsProgress(before: map<Place, Content>, disk: map<Place, Content>, rows: Db, operation: Operation,
                             path: Path)
    requires Progress(before, disk, rows, operation) && !Referenced(rows, path)
    ensures Progress(before, disk - {Slot(operation, path)}, rows, operation)
  {
    var after := disk - {Slot(operation, path)};
    forall place | place in after && !(place in before && after[place] == before[place])
      ensures PutBack(before, after, rows, operation, place)
    {
      assert place in disk && PutBack(before, disk, rows, operation, place);
    }
  }

  /** Puts one staged file back, unless it is already back. */
  method RestoreStagedUpload(s: Server, operation: Operation, path: Path) returns (err: Error)
    requires s.Valid()
    modifies s`disk, s`log
    ensures s.Valid()
    ensures err == NoError || err == DestinationExists || err == Failed
    ensures err == DestinationExists ==> Slot(operation, path) in old(s.disk) && Home(path) in old(s.disk)
    ensures s.reliable ==> err != Failed
    ensures if err == NoError && Slot(operation, path) in old(s.disk)
            then s.disk == Moved(old(s.disk), Slot(operation, path), Home(path))
                && s.log == old(s.log) + [AfterCrash(s.Now())]
                 && Home(path) !in old(s.disk)
            else s.disk == old(s.disk) && s.log == old(s.log)
  {
    var ok := s.Works();
    if !ok {
      return Failed;
    }
    if Slot(operation, path) !in s.disk {
      return NoError;
    }
    if Home(path) in s.disk {
      return DestinationExists;
    }
    ok := s.Works();
    if !ok {
      return Failed;
    }
    ok := s.Rename(Slot(operation, path), Home(path));
    err := if ok then NoError else Failed;
  }

  /** One file of an operation, by the rows: back to its path if any row references it, destroyed otherwise. */
  method ResolveStagedFile(s: Server, operation: Operation, path: Path, rows: Db, inTransaction: bool,
                           ghost origin: map<Place, Content>) returns (err: Error)
    requires s.Valid() && Inv(s.Now()) && rows == s.db && Progress(origin, s.disk, rows, operation)
    modifies s`disk, s`log, s`locks
    ensures s.locks == old(s.locks) + if err == Contention then 1 else 0
    ensures s.Valid() && Inv(s.Now()) && AfterCrash(s.Now()) == old(AfterCrash(s.Now()))
    ensures s.log == old(s.log) || s.log == old(s.log) + [AfterCrash(s.Now())]
    ensures Progress(origin, s.disk, rows, operation)
    ensures forall other {:trigger Slot(operation, other) in s.disk} :: Slot(operation, other) in s.disk ==>
              Slot(operation, other) in old(s.disk)
    ensures err == NoError ==> Slot(operation, path) !in s.disk
    ensures err == NoError || err == Contention || err == Failed
    ensures err == Contention ==> inTransaction
    ensures s.reliable && !inTransaction ==> err == NoError
    ensures s.reliable ==> err != Failed
  {
    ghost var before := s.Now();
    if inTransaction {
      err := s.Statement();
    } else {
      err := s.Query();
    }
    if err != NoError {
      return;
    }
    if Referenced(rows, path) {
      err := RestoreReferenced(s, operation, path, origin);
    } else {
      var ok := s.RemoveFile(Slot(operation, path));
      if !ok {
        return Failed;
      }
      DropKeepsMeaning(before, s.Now(), Slot(operation, path));
      DestroyingIsProgress(origin, before.disk, rows, operation, path);
    }
  }

  method ResolveStagedFiles(s: Server, operation: Operation, files: seq<Path>, rows: Db, inTransaction: bool)
    returns (err: Error)
    requires s.Valid() && Inv(s.Now()) && rows == s.db && Covers(s.disk, operation, files)
    modifies s`disk, s`log, s`locks
    ensures s.locks == old(s.locks) + if err == Contention then 1 else 0
    ensures s.Valid() && Inv(s.Now()) && AfterCrash(s.Now()) == old(AfterCrash(s.Now()))
    ensures old(s.log) <= s.log && s.KeptSince(old(|s.log|), old(AfterCrash(s.Now())))
    ensures Progress(old(s.disk), s.disk, rows, operation) && Covers(s.disk, operation, files)
    ensures err == NoError ==> Emptied(s.disk, operation)
    ensures err == NoError || err == Contention || err == Failed
    ensures err == Contention ==> inTransaction
    ensures s.reliable && !inTransaction ==> err == NoError
    ensures s.reliable ==> err != Failed
  {
    for n := 0 to |files|
      invariant s.Valid() && Inv(s.Now()) && AfterCrash(s.Now()) == old(AfterCrash(s.Now()))
      invariant old(s.log) <= s.log && s.KeptSince(old(|s.log|), old(AfterCrash(s.Now())))
      invariant Progress(old(s.disk), s.disk, rows, operation) && Covers(s.disk, operation, files[n..])
      invariant s.locks == old(s.locks)
    {
      assert files[n..] == [files[n]] + files[n + 1..];
      err := ResolveStagedFile(s, operation, files[n], rows, inTransaction, old(s.disk));
      if err != NoError {
        return;
      }
    }
    err := NoError;
  }

  method RemoveEmptied(s: Server, operation: Operation) returns (ok: bool)
    requires s.Valid() && Inv(s.Now()) && Emptied(s.disk, operation)
    modifies s`operations, s`log
    ensures s.Valid() && Inv(s.Now()) && AfterCrash(s.Now()) == old(AfterCrash(s.Now()))
    ensures s.log == old(s.log) || s.log == old(s.log) + [AfterCrash(s.Now())]
    ensures s.operations == if ok then old(s.operations) - {operation} else old(s.operations)
    ensures s.reliable ==> ok
  {
    ghost var before := s.Now();
    ok := s.RemoveDirectory(operation);
    DirectoryKeepsMeaning(before, s.Now());
  }

  /**
   * Resolves an operation by the rows. Whatever fails, each state on the way means what the first one meant, and
   * running it again continues where this run stopped.
   */
  method Finish(s: Server, staged: Quarantine, rows: Db, inTransaction: bool) returns (err: Error)
    requires s.Valid() && Inv(s.Now()) && rows == s.db
    requires staged.operation.Some? ==> Covers(s.disk, staged.operation.value, staged.files)
    modifies s`disk, s`operations, s`log, s`locks
    ensures s.locks == old(s.locks) + if err == Contention then 1 else 0
    ensures s.Valid() && old(s.log) <= s.log && Inv(s.Now()) && AfterCrash(s.Now()) == old(AfterCrash(s.Now()))
    ensures s.KeptSince(old(|s.log|), old(AfterCrash(s.Now())))
    ensures err == NoError || err == Contention || err == Failed
    ensures err == Contention ==> inTransaction
    ensures s.reliable && !inTransaction ==> err == NoError
    ensures s.reliable ==> err != Failed
    ensures staged.operation.None? ==> err == NoError && s.log == old(s.log) && s.Now() == old(s.Now())
    ensures staged.operation.Some? ==>
              var op := staged.operation.value;
              && Covers(s.disk, op, staged.files)
              && if err == NoError
                 then Finished(old(s.disk), s.disk, rows, op) && s.operations == old(s.operations) - {op}
                 else Progress(old(s.disk), s.disk, rows, op) && s.operations == old(s.operations)
  {
    if staged.operation.None? {
      return NoError;
    }
    var op := staged.operation.value;
    var ok := s.Works();
    if !ok {
      return Failed;
    }
    err := ResolveStagedFiles(s, op, staged.files, rows, inTransaction);
    if err == NoError {
      ok := RemoveEmptied(s, op);
      err := if ok then NoError else Failed;
    }
  }

  /** The originals of some paths lie in an operation's slots; everything else is where it was. */
  ghost predicate Staged(before: map<Place, Content>, after: map<Place, Content>, operation: Operation,
                         files: seq<Path>) {
    && (forall place {:trigger place in before} | place in before ::
          var now := if place.Home? && place.path in files then Slot(operation, place.path) else place;
          now in after && after[now] == before[place])
    && (forall place {:trigger place in after} | place in after ::
          if InOperation(place, operation) then place.path in files && Home(place.path) in before
          else place in before && !(place.Home? && place.path in files))
  }

  lemma NothingStaged(disk: map<Place, Content>, operation: Operation)
    requires Emptied(disk, operation)
    ensures Staged(disk, disk, operation, [])
  {
    forall place | place in disk ensures !InOperation(place, operation) {
      assert InOperation(place, operation) ==> Slot(operation, place.path) in disk;
    }
  }

  lemma StagingOneMore(before: map<Place, Content>, disk: map<Place, Content>, operation: Operation, files: seq<Path>,
                       path: Path)
    requires Staged(before, disk, operation, files) && Emptied(before, operation)
    requires Home(path) in disk
    ensures Staged(before, Moved(disk, Home(path), Slot(operation, path)), operation, files + [path])
  {
  }

  /** The tree after a delete of these rows: the staged originals that nothing references any more are gone. */
  ghost function Pruned(before: map<Place, Content>, rows: Db, files: seq<Path>): map<Place, Content> {
    map place | place in before && !(place.Home? && place.path in files && !Referenced(rows, place.path)) ::
        before[place]
  }

  /**
   * Staging and then resolving is all or nothing by the rows: with every row still there the tree is what it was,
   * and with the rows gone exactly their originals are gone.
   */
  lemma ResolvingStaged(before: map<Place, Content>, staged: map<Place, Content>, after: map<Place, Content>,
                        rows: Db, operation: Operation, files: seq<Path>)
    requires Unique(before) && Emptied(before, operation)
    requires Staged(before, staged, operation, files) && Finished(staged, after, rows, operation)
    ensures after == Pruned(before, rows, files)
  {
    var pruned := Pruned(before, rows, files);
    forall place | place in pruned ensures place in after && after[place] == pruned[place] {
      if place.Home? && place.path in files {
        assert Slot(operation, place.path) in staged;
        assert place !in staged;
        assert Home(place.path) in after;
        assert PutBack(staged, after, rows, operation, place);
      } else {
        assert place in staged && !InOperation(place, operation);
      }
    }
    forall place | place in after ensures place in pruned {
      if place !in staged {
        assert PutBack(staged, after, rows, operation, place);
        assert Slot(operation, place.path) in staged;
      }
    }
    assert after.Keys == pruned.Keys;
  }

  ghost predicate AllReferenced(rows: Db, files: seq<Path>) {
    forall path {:trigger Referenced(rows, path)} :: path in files ==> Referenced(rows, path)
  }

  /** Puts everything staged so far back, last first, going on past what fails. */
  method RestoreWithRoot(s: Server, operation: Operation, files: seq<Path>) returns (err: Error)
    requires s.Valid() && Inv(s.Now()) && Covers(s.disk, operation, files)
    requires AllReferenced(s.db, files)
    modifies s`disk, s`operations, s`log
    ensures s.Valid() && Inv(s.Now()) && AfterCrash(s.Now()) == old(AfterCrash(s.Now()))
    ensures old(s.log) <= s.log && s.KeptSince(old(|s.log|), old(AfterCrash(s.Now())))
    ensures err == NoError ==>
              Finished(old(s.disk), s.disk, s.db, operation) && s.operations == old(s.operations) - {operation}
    ensures err == NoError || err == Failed
    ensures s.reliable ==> err == NoError
  {
    err := RestoreAll(s, operation, files);
    if err == NoError {
      var ok := RemoveEmptied(s, operation);
      err := if ok then NoError else Failed;
    }
  }

  method RestoreAll(s: Server, operation: Operation, files: seq<Path>) returns (err: Error)
    requires s.Valid() && Inv(s.Now()) && Covers(s.disk, operation, files)
    requires AllReferenced(s.db, files)
    modifies s`disk, s`log
    ensures s.Valid() && Inv(s.Now()) && AfterCrash(s.Now()) == old(AfterCrash(s.Now()))
    ensures old(s.log) <= s.log && s.KeptSince(old(|s.log|), old(AfterCrash(s.Now())))
    ensures Progress(old(s.disk), s.disk, s.db, operation)
    ensures err == NoError ==> Emptied(s.disk, operation)
    ensures err == NoError || err == Failed
    ensures s.reliable ==> err == NoError
  {
    hide Inv;
    err := NoError;
    AllPaths(files);
    for n := |files| downto 0
      invariant s.Valid() && Inv(s.Now()) && AfterCrash(s.Now()) == old(AfterCrash(s.Now()))
      invariant old(s.log) <= s.log && s.KeptSince(old(|s.log|), old(AfterCrash(s.Now())))
      invariant Progress(old(s.disk), s.disk, s.db, operation)
      invariant err == NoError ==> Within(s.disk, operation, PathSet(files, n))
      invariant err == NoError || err == Failed
      invariant s.reliable ==> err == NoError
    {
      OneMorePath(files, n);
      var one := RestoreReferenced(s, operation, files[n], old(s.disk));
      err := if one == NoError then err else Failed;
    }
  }

  method RestoreReferenced(s: Server, operation: Operation, path: Path, ghost origin: map<Place, Content>)
    returns (err: Error)
    requires s.Valid() && Inv(s.Now()) && Referenced(s.db, path) && Progress(origin, s.disk, s.db, operation)
    modifies s`disk, s`log
    ensures s.Valid() && Inv(s.Now()) && AfterCrash(s.Now()) == old(AfterCrash(s.Now()))
    ensures s.log == old(s.log) || s.log == old(s.log) + [AfterCrash(s.Now())]
    ensures Progress(origin, s.disk, s.db, operation)
    ensures forall other {:trigger Slot(operation, other) in s.disk} :: Slot(operation, other) in s.disk ==>
              Slot(operation, other) in old(s.disk)
    ensures err == NoError ==> Slot(operation, path) !in s.disk
    ensures err == NoError || err == Failed
    ensures s.reliable ==> err == NoError
  {
    ghost var before := s.Now();
    err := RestoreStagedUpload(s, operation, path);
    if Slot(operation, path) in before.disk && err == NoError {
      MoveKeepsMeaning(before, s.Now(), Slot(operation, path), Home(path));
      PuttingBackIsProgress(origin, before.disk, s.db, operation, path);
    }
  }

  ghost predicate NoneAtHome(disk: map<Place, Content>, paths: set<Path>) {
    forall path {:trigger Home(path) in disk} :: path in paths ==> Home(path) !in disk
  }

  lemma GoneFromHome(disk: map<Place, Content>, operation: Operation, path: Path, done: set<Path>)
    requires Home(path) in disk && NoneAtHome(disk, done)
    ensures NoneAtHome(Moved(disk, Home(path), Slot(operation, path)), done + {path})
  {
  }

  lemma StagingKeepsMeaning(before: Store, after: Store, operation: Operation, path: Path, files: seq<Path>,
                            origin: map<Place, Content>, done: set<Path>)
    requires Inv(before) && Stored(path) && Home(path) in before.disk
    requires operation in before.operations && operation.area == Deletions
    requires after == before.(disk := Moved(before.disk, Home(path), Slot(operation, path)))
    requires Emptied(origin, operation) && Staged(origin, before.disk, operation, files)
               && NoneAtHome(before.disk, done)
    ensures Inv(after) && AfterCrash(after) == AfterCrash(before) && Referenced(before.db, path)
    ensures Staged(origin, after.disk, operation, files + [path]) && NoneAtHome(after.disk, done + {path})
  {
    assert Referenced(before.db, path);
    MoveKeepsMeaning(before, after, Home(path), Slot(operation, path));
    GoneFromHome(before.disk, operation, path, done);
    StagingOneMore(origin, before.disk, operation, files, path);
  }

  /** Moves one original into the operation; a missing original is skipped. */
  method StageOne(s: Server, operation: Operation, path: Path, files: seq<Path>, ghost origin: map<Place, Content>,
                  ghost done: set<Path>)
    returns (ok: bool, files': seq<Path>)
    requires s.Valid() && Inv(s.Now()) && Stored(path)
    requires operation in s.operations && operation.area == Deletions
    requires Emptied(origin, operation) && Staged(origin, s.disk, operation, files)
    requires AllReferenced(s.db, files)
    requires NoneAtHome(s.disk, done)
    modifies s`disk, s`log
    ensures s.Valid() && Inv(s.Now()) && AfterCrash(s.Now()) == old(AfterCrash(s.Now()))
    ensures s.log == old(s.log) || s.log == old(s.log) + [AfterCrash(s.Now())]
    ensures Staged(origin, s.disk, operation, files') && AllReferenced(s.db, files')
    ensures files' == files || files' == files + [path]
    ensures ok ==> NoneAtHome(s.disk, done + {path})
    ensures s.reliable ==> ok
  {
    hide Inv, Staged, Emptied;
    files' := files;
    ok := s.Works();
    if !ok {
      return;
    }
    if Home(path) !in s.disk {
      return;
    }
    ghost var before := s.Now();
    ok := s.Rename(Home(path), Slot(operation, path));
    if ok {
      StagingKeepsMeaning(before, s.Now(), operation, path, files, origin, done);
      files' := files + [path];
    }
  }

  /**
   * Sets the originals of some rows aside under a fresh operation. If anything fails on the way, what was set aside
   * is put back as far as possible and the caller gets no note to finish later.
   */
  method StageStoredFiles(s: Server, values: seq<Option<RawPath>>) returns (err: Error, staged: Quarantine)
    requires s.Valid() && Inv(s.Now())
    modifies s`disk, s`operations, s`areas, s`log
    ensures s.Valid() && Inv(s.Now()) && AfterCrash(s.Now()) == old(AfterCrash(s.Now()))
    ensures old(s.log) <= s.log && s.KeptSince(old(|s.log|), old(AfterCrash(s.Now())))
    ensures err == NoError || err == Failed
    ensures err == NoError && staged.operation.None? ==>
              staged.files == [] && s.disk == old(s.disk) && s.operations == old(s.operations)
    ensures err == NoError && staged.operation.Some? ==>
              && Emptied(old(s.disk), staged.operation.value)
              && Staged(old(s.disk), s.disk, staged.operation.value, staged.files)
              && staged.operation.value !in old(s.operations)
              && s.operations == old(s.operations) + {staged.operation.value}
    ensures err == NoError ==>
              forall i | 0 <= i < |values| && values[i].Some? && CleanStoredUploadPath(values[i].value).Some? ::
                Home(CleanStoredUploadPath(values[i].value).value) !in s.disk
    ensures err == NoError ==>
              forall path | path in staged.files ::
                exists i :: 0 <= i < |values| && values[i].Some? && CleanStoredUploadPath(values[i].value) == Some(path)
    ensures s.reliable && err != NoError ==>
              && s.Now() == old(s.Now())
              && exists i :: 0 <= i < |values| && values[i].Some? && CleanStoredUploadPath(values[i].value).None?
  {
    staged := Quarantine(None, []);
    var paths := StoredUploadPaths(values);
    if paths.None? {
      return Failed, staged;
    }
    if paths.value == [] {
      return NoError, staged;
    }
    err, staged := StagePaths(s, paths.value);
  }

  method StagePaths(s: Server, paths: seq<Path>) returns (err: Error, staged: Quarantine)
    requires s.Valid() && Inv(s.Now()) && forall path | path in paths :: Stored(path)
    modifies s`disk, s`operations, s`areas, s`log
    ensures s.Valid() && Inv(s.Now()) && AfterCrash(s.Now()) == old(AfterCrash(s.Now()))
    ensures old(s.log) <= s.log && s.KeptSince(old(|s.log|), old(AfterCrash(s.Now())))
    ensures err == NoError || err == Failed
    ensures s.reliable ==> err == NoError
    ensures err == NoError ==> staged.operation.Some? && (var op := staged.operation.value;
              && Emptied(old(s.disk), op) && Staged(old(s.disk), s.disk, op, staged.files)
              && op !in old(s.operations) && s.operations == old(s.operations) + {op}
              && (forall path | path in paths :: Home(path) !in s.disk)
              && (forall path | path in staged.files :: path in paths))
  {
    staged := Quarantine(None, []);
    var ok := s.Works();
    if !ok {
      return Failed, staged;
    }
    var token := s.Token();
    var op := Operation(Deletions, token);
    ghost var before := s.Now();
    ok := s.MakeOperation(op);
    if !ok {
      return Failed, staged;
    }
    DirectoryKeepsMeaning(before, s.Now());
    var files;
    ok, files := StageAll(s, op, paths);
    if ok {
      AllPaths(paths);
      return NoError, Quarantine(Some(op), files);
    }
    var undone := RestoreWithRoot(s, op, files);
    err := Failed;
  }

  method StageAll(s: Server, operation: Operation, paths: seq<Path>) returns (ok: bool, files: seq<Path>)
    requires s.Valid() && Inv(s.Now()) && forall path | path in paths :: Stored(path)
    requires operation in s.operations && operation.area == Deletions && Emptied(s.disk, operation)
    modifies s`disk, s`log
    ensures s.Valid() && Inv(s.Now()) && AfterCrash(s.Now()) == old(AfterCrash(s.Now()))
    ensures old(s.log) <= s.log && s.KeptSince(old(|s.log|), old(AfterCrash(s.Now())))
    ensures Staged(old(s.disk), s.disk, operation, files)
    ensures AllReferenced(s.db, files) && forall f | f in files :: f in paths
    ensures ok ==> NoneAtHome(s.disk, PathSet(paths, |paths|))
    ensures s.reliable ==> ok
  {
    ok, files := true, [];
    ghost var done: set<Path> := {};
    NothingStaged(s.disk, operation);
    for n := 0 to |paths|
      invariant ok && s.Valid() && Inv(s.Now()) && AfterCrash(s.Now()) == old(AfterCrash(s.Now()))
      invariant old(s.log) <= s.log && s.KeptSince(old(|s.log|), old(AfterCrash(s.Now())))
      invariant Staged(old(s.disk), s.disk, operation, files)
      invariant AllReferenced(s.db, files) && forall f | f in files :: f in paths
      invariant NoneAtHome(s.disk, done) && done == PathSet(paths, n)
    {
      ok, files := StageOne(s, operation, paths[n], files, old(s.disk), done);
      if !ok {
        return;
      }
      done := done + {paths[n]};
      OneMorePath(paths, n);
    }
  }

  /** The files below an operation's directory. */
  method ListOperation(disk: map<Place, Content>, operation: Operation) returns (slots: seq<Path>)
    ensures forall path :: path in slots <==> Slot(operation, path) in disk
    ensures forall i, j | 0 <= i < j < |slots| :: slots[i] != slots[j]
  {
    var rest := set place | place in disk && InOperation(place, operation);
    slots := [];
    while rest != {}
      invariant forall place | place in rest :: place in disk && InOperation(place, operation)
      invariant forall path :: Slot(operation, path) in disk <==> path in slots || Slot(operation, path) in rest
      invariant forall path | path in slots :: Slot(operation, path) !in rest
      invariant forall i, j | 0 <= i < j < |slots| :: slots[i] != slots[j]
    {
      var slot :| slot in rest;
      slots, rest := slots + [slot.path], rest - {slot};
    }
  }

  function AreaName(area: Area): string {
    match area
    case Staging => ".upload-staging"
    case Deletions => ".upload-deletions"
  }

  /** What recovery makes of the name it finds in the walk: the operation's prefix goes, the rest is cleaned. */
  function Recovered(operation: Operation, slot: Path): Option<Path> {
    var walked := SlotPath(AreaName(operation.area), operation.token, slot);
    CleanStoredUploadPath(RawPath(false, Unprefixed(AreaName(operation.area), operation.token, walked)))
  }

  /**
   * The walk over an operation: an unacceptable name is an error, every other one gives the path
   * it was staged from.
   */
  method WalkOperation(disk: map<Place, Content>, operation: Operation)
    returns (files: Option<seq<Path>>, slots: seq<Path>)
    ensures forall path :: path in slots <==> Slot(operation, path) in disk
    ensures forall i, j | 0 <= i < j < |slots| :: slots[i] != slots[j]
    ensures files.None? ==> exists i :: 0 <= i < |slots| && Recovered(operation, slots[i]).None?
    ensures files.Some? ==>
              |files.value| == |slots| && forall i | 0 <= i < |slots| ::
                  Recovered(operation, slots[i]) == Some(files.value[i])
  {
    var listed := ListOperation(disk, operation);
    slots := listed;
    var originals: seq<Path> := [];
    for n := 0 to |listed|
      invariant |originals| == n && forall i | 0 <= i < n :: Recovered(operation, listed[i]) == Some(originals[i])
    {
      var original := Recovered(operation, listed[n]);
      if original.None? {
        return None, slots;
      }
      originals := originals + [original.value];
    }
    files := Some(originals);
  }

  /** What the protocol staged is found again: the walk gives back exactly the paths of the files in the operation. */
  lemma WalkFindsOriginals(st: Store, operation: Operation, files: Option<seq<Path>>, slots: seq<Path>)
    requires Inv(st) && operation in st.operations
    requires forall path :: path in slots <==> Slot(operation, path) in st.disk
    requires files.None? ==> exists i :: 0 <= i < |slots| && Recovered(operation, slots[i]).None?
    requires files.Some? ==>
               |files.value| == |slots| && forall i | 0 <= i < |slots| ::
                   Recovered(operation, slots[i]) == Some(files.value[i])
    ensures files == Some(slots) && Covers(st.disk, operation, slots)
  {
    forall i | 0 <= i < |slots| ensures Recovered(operation, slots[i]) == Some(slots[i]) {
      assert slots[i] in slots && Slot(operation, slots[i]) in st.disk;
      WalkRecoversOriginal(AreaName(operation.area), operation.token, slots[i]);
    }
    assert files.Some?;
    assert forall i | 0 <= i < |slots| :: files.value[i] == slots[i];
    assert files.value == slots;
  }

  method RecoverOperation(s: Server, operation: Operation) returns (err: Error)
    requires s.Valid() && Inv(s.Now()) && operation in s.operations
    modifies s`disk, s`operations, s`log, s`locks
    ensures s.locks == old(s.locks)
    ensures s.Valid() && Inv(s.Now()) && AfterCrash(s.Now()) == old(AfterCrash(s.Now()))
    ensures old(s.log) <= s.log && s.KeptSince(old(|s.log|), old(AfterCrash(s.Now())))
    ensures err == NoError || err == Failed
    ensures s.operations == if err == NoError then old(s.operations) - {operation} else old(s.operations)
    ensures s.reliable ==> err == NoError
  {
    var ok := s.Works();
    if !ok {
      return Failed;
    }
    var files, slots := WalkOperation(s.disk, operation);
    WalkFindsOriginals(s.Now(), operation, files, slots);
    err := Failed;
    if files.Some? {
      err := Finish(s, Quarantine(Some(operation), files.value), s.db, false);
    }
  }

  method RecoverStagedUploadRoot(s: Server, area: Area) returns (err: Error)
    requires s.Valid() && Inv(s.Now())
    modifies s`disk, s`operations, s`areas, s`log, s`locks
    ensures s.locks == old(s.locks)
    ensures s.Valid() && Inv(s.Now()) && AfterCrash(s.Now()) == old(AfterCrash(s.Now()))
    ensures old(s.log) <= s.log && s.KeptSince(old(|s.log|), old(AfterCrash(s.Now())))
    ensures err == NoError || err == Failed
    ensures err == NoError ==> area !in s.areas
    ensures s.operations <= old(s.operations) && s.areas <= old(s.areas)
    ensures s.reliable ==> err == NoError
  {
    var ok := s.Works();
    if !ok {
      return Failed;
    }
    if area !in s.areas {
      return NoError;
    }
    var entries := set op | op in s.operations && op.area == area;
    while entries != {}
      invariant s.Valid() && Inv(s.Now()) && AfterCrash(s.Now()) == old(AfterCrash(s.Now()))
      invariant old(s.log) <= s.log && s.KeptSince(old(|s.log|), old(AfterCrash(s.Now())))
      invariant s.operations <= old(s.operations) && s.areas == old(s.areas)
      invariant entries == set op | op in s.operations && op.area == area
      invariant s.locks == old(s.locks)
    {
      var op :| op in entries;
      err := RecoverOperation(s, op);
      if err != NoError {
        return;
      }
      entries := entries - {op};
    }
    ghost var before := s.Now();
    assert forall op | op in s.operations :: op.area == area ==> op in entries;
    ok := s.RemoveArea(area);
    DirectoryKeepsMeaning(before, s.Now());
    err := if ok then NoError else Failed;
  }

  /**
   * Resolves everything a crash interrupted. Each state it passes through would recover to the same store, so it
   * may itself be cut short and run again; when it succeeds, no interrupted work is left.
   */
  method RecoverUploadDeletions(s: Server) returns (err: Error)
    requires s.Valid() && Inv(s.Now())
    modifies s`disk, s`operations, s`areas, s`log, s`locks
    ensures s.locks == old(s.locks)
    ensures s.Valid() && Inv(s.Now()) && AfterCrash(s.Now()) == old(AfterCrash(s.Now()))
    ensures old(s.log) <= s.log && s.KeptSince(old(|s.log|), old(AfterCrash(s.Now())))
    ensures err == NoError ==> Settled(s.Now())
    ensures old(Settled(s.Now())) ==> s.Now() == old(s.Now())
    ensures s.reliable ==> err == NoError
  {
    ghost var start := s.Now();
    err := RecoverStagedUploadRoot(s, Staging);
    if err == NoError {
      err := RecoverStagedUploadRoot(s, Deletions);
    }
    if err == NoError {
      NoAreasLeft(s.Now());
    }
    if Settled(start) {
      assert forall place | place in s.disk :: place.Home?;
      SettledIsUnique(start, s.Now());
    }
  }

  /**
   * Recovery has one result: wherever a first recovery was cut short, a second one that succeeds ends in the same store
   * as one that had succeeded at once.
   */
  lemma RecoveriesAgree(start: Store, interrupted: Store, once: Store, again: Store)
    requires Inv(start)
    requires AfterCrash(once) == AfterCrash(start) && Settled(once)
    requires AfterCrash(interrupted) == AfterCrash(start)
    requires AfterCrash(again) == AfterCrash(interrupted) && Settled(again)
    ensures again == once
  {
    assert AfterCrash(start) == Recovers(start.db, Promised(start));
    assert Inv(once) && Inv(again);
    SettledIsUnique(once, again);
  }

  lemma NoAreasLeft(st: Store)
    requires Inv(st) && Staging !in st.areas && Deletions !in st.areas
    ensures Settled(st)
  {
    forall op | op in st.operations ensures op.area in st.areas && op.area != Staging && op.area != Deletions {
    }
    assert st.areas == {} by {
      forall area | area in st.areas ensures area != Staging && area != Deletions {
      }
    }
    forall op, path ensures Slot(op, path) !in st.disk {
    }
    forall place | place in st.disk ensures place.Home? {
      match place
      case Home(_) =>
      case Slot(op, path) =>
    }
  }
}
