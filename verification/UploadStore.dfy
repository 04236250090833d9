/**
 * What survives a crash: the committed tables and the upload tree. Stored originals, files being received and
 * files set aside for deletion all live in the tree, and no transaction covers tree and tables together.
 */
module UploadStore {
  import opened StoredPaths
  import opened Records

  datatype Area = Staging | Deletions

  /** A directory `.upload-staging/<token>` or `.upload-deletions/<token>`. */
  datatype Operation = Operation(area: Area, token: string)

  /** Where a file lies: at its storage path, or under an operation's copy of that path. */
  datatype Place = Home(path: Path) | Slot(operation: Operation, path: Path)

  datatype Content = Partial | Complete(bytes: seq<bv8>)

  datatype Store = Store(db: Db, disk: map<Place, Content>, operations: set<Operation>, areas: set<Area>)

  predicate InOperation(place: Place, operation: Operation) {
    place.Slot? && place.operation == operation
  }

  /** No path has its content in two places. */
  ghost predicate Unique(disk: map<Place, Content>) {
    forall a, b | a in disk && b in disk && a.path == b.path :: a == b
  }

  predicate Backed(disk: map<Place, Content>, row: FileRow) {
    exists place | place in disk ::
      place.path == row.path && disk[place].Complete? && |disk[place].bytes| == row.size
  }

  ghost predicate AllBacked(st: Store) {
    forall f {:trigger Backed(st.disk, st.db.files[f])} | f in st.db.files :: Backed(st.disk, st.db.files[f])
  }

  ghost predicate HomesReferenced(st: Store) {
    forall path {:trigger Home(path) in st.disk} :: Home(path) in st.disk ==> Referenced(st.db, path)
  }

  /** Every slot belongs to a listed operation; a received file's path carries the token it is received with. */
  ghost predicate SlotsListed(st: Store) {
    && (forall op, path {:trigger Slot(op, path) in st.disk} :: Slot(op, path) in st.disk ==> op in st.operations)
    && (forall op, path {:trigger Slot(op, path) in st.disk} :: Slot(op, path) in st.disk ==>
          Stored(path) && (op.area == Staging ==> Under(path, op.token)))
    && (forall op | op in st.operations :: op.area in st.areas && Plain(op.token))
  }

  ghost predicate RowsStored(db: Db) {
    forall f {:trigger db.files[f]} | f in db.files :: Stored(db.files[f].path)
  }

  /** What holds of the persistent state after every single step of every run. */
  ghost predicate Inv(st: Store) {
    Linked(st.db) && RowsStored(st.db) && DistinctFiles(st.db.files) && Unique(st.disk) && AllBacked(st)
        && HomesReferenced(st) && SlotsListed(st)
  }

  /** What an interrupted store means: the content every referenced path is to have. */
  ghost function Promised(st: Store): set<(Path, Content)> {
    set place | place in st.disk && Referenced(st.db, place.path) :: (place.path, st.disk[place])
  }

  /** What a crash in a state leaves: rows and the contents promised to them, or a store no recovery can mend. */
  datatype Crash = Recovers(db: Db, promised: set<(Path, Content)>) | Damaged

  /** The same contents, kept for the paths other rows still reference. */
  ghost function Keeping(crash: Crash, rows: Db): Crash
    requires crash.Recovers?
  {
    Recovers(rows, set x | x in crash.promised && Referenced(rows, x.0))
  }

  ghost function AfterCrash(st: Store): Crash {
    if Inv(st) then Recovers(st.db, Promised(st)) else Damaged
  }

  function Moved(disk: map<Place, Content>, from: Place, to: Place): map<Place, Content>
    requires from in disk
  {
    (disk - {from})[to := disk[from]]
  }

  lemma BackingPlace(disk: map<Place, Content>, row: FileRow) returns (place: Place)
    requires Backed(disk, row)
    ensures place in disk && place.path == row.path && disk[place].Complete? && |disk[place].bytes| == row.size
  {
    place :| place in disk && place.path == row.path && disk[place].Complete? && |disk[place].bytes| == row.size;
  }

  lemma MoveKeepsContents(st: Store, after: Store, from: Place, to: Place)
    requires Unique(st.disk) && AllBacked(st)
    requires from in st.disk && to.path == from.path && to != from
    requires after.db == st.db && after.disk == Moved(st.disk, from, to)
    ensures Unique(after.disk) && AllBacked(after) && Promised(after) == Promised(st)
  {
    forall f | f in st.db.files ensures Backed(after.disk, st.db.files[f]) {
      assert Backed(st.disk, st.db.files[f]);
      var place := BackingPlace(st.disk, st.db.files[f]);
      assert (if place == from then to else place) in after.disk;
    }
    forall x | x in Promised(st) ensures x in Promised(after) {
      var place :| place in st.disk && Referenced(st.db, place.path) && x == (place.path, st.disk[place]);
      assert (if place == from then to else place) in after.disk;
    }
    forall x | x in Promised(after) ensures x in Promised(st) {
      var place :| place in after.disk && Referenced(st.db, place.path) && x == (place.path, after.disk[place]);
      assert (if place == to then from else place) in st.disk;
    }
  }

  /** No interrupted work is left: only files at their storage paths. */
  ghost predicate Settled(st: Store) {
    st.operations == {} && st.areas == {} && forall place | place in st.disk :: place.Home?
  }

  /** In a settled store each referenced file lies at its storage path, and nothing else lies anywhere. */
  lemma SettledHoldsWhatIsReferenced(st: Store)
    requires Inv(st) && Settled(st)
    ensures forall path :: Home(path) in st.disk <==> Referenced(st.db, path)
    ensures forall path | Home(path) in st.disk :: (path, st.disk[Home(path)]) in Promised(st)
  {
    forall path | Referenced(st.db, path) ensures Home(path) in st.disk {
      var f :| f in st.db.files && st.db.files[f].path == path;
      assert Backed(st.disk, st.db.files[f]);
      var place := BackingPlace(st.disk, st.db.files[f]);
      assert place.Home?;
    }
  }

  /** Tables and promised contents leave no choice: there is one settled store for them. */
  lemma SettledIsUnique(a: Store, b: Store)
    requires Inv(a) && Inv(b) && Settled(a) && Settled(b) && a.db == b.db && Promised(a) == Promised(b)
    ensures a == b
  {
    SettledHoldsWhatIsReferenced(a);
    SettledHoldsWhatIsReferenced(b);
    forall place | place in a.disk ensures place in b.disk && a.disk[place] == b.disk[place] {
      assert place == Home(place.path) && Referenced(a.db, place.path);
      assert (place.path, a.disk[place]) in Promised(b);
      var held :| held in b.disk && (held.path, b.disk[held]) == (place.path, a.disk[place]);
      assert held == Home(held.path);
    }
    forall place | place in b.disk ensures place in a.disk {
      assert place == Home(place.path) && Referenced(b.db, place.path);
    }
    assert a.disk == b.disk;
  }

  /** Renaming a file between two places of one path keeps the store's meaning. */
  lemma MoveKeepsMeaning(st: Store, after: Store, from: Place, to: Place)
    requires Inv(st) && from in st.disk && to.path == from.path && to != from
    requires to.Home? ==> Referenced(st.db, to.path)
    requires to.Slot? ==> to.operation in st.operations && to.operation.area == Deletions && Stored(to.path)
    requires after == st.(disk := Moved(st.disk, from, to))
    ensures Inv(after) && Promised(after) == Promised(st)
  {
    MoveKeepsContents(st, after, from, to);
  }

  /** Destroying a file no row references keeps the store's meaning. */
  lemma DropKeepsMeaning(st: Store, after: Store, place: Place)
    requires Inv(st) && !Referenced(st.db, place.path)
    requires after == st.(disk := st.disk - {place})
    ensures Inv(after) && Promised(after) == Promised(st)
  {
    forall f | f in st.db.files ensures Backed(after.disk, st.db.files[f]) {
      assert Backed(st.disk, st.db.files[f]);
      var held := BackingPlace(st.disk, st.db.files[f]);
      assert held in after.disk;
    }
    forall x | x in Promised(st) ensures x in Promised(after) {
      var held :| held in st.disk && Referenced(st.db, held.path) && x == (held.path, st.disk[held]);
      assert held in after.disk;
    }
  }

  /** Directories carry no content. */
  lemma DirectoryKeepsMeaning(before: Store, after: Store)
    requires Inv(before) && after.db == before.db && after.disk == before.disk
    requires SlotsListed(after)
    ensures Inv(after) && Promised(after) == Promised(before)
  {
    forall f | f in after.db.files ensures Backed(after.disk, after.db.files[f]) {
      assert Backed(before.disk, before.db.files[f]);
    }
  }

  /**
   * Committing the delete of some rows, once no file they alone reference lies at its storage path: the contents
   * promised to the remaining rows stay as they were.
   */
  lemma CommittingDelete(st: Store, after: Store, target: Target)
    requires Inv(st) && after == st.(db := Deleted(st.db, target))
    requires forall f | f in OwnedFiles(st.db, target) :: Home(st.db.files[f].path) !in st.disk
    ensures Inv(after) && AfterCrash(after) == Keeping(AfterCrash(st), after.db)
  {
    DeletedIsExact(st.db, target);
    forall f | f in after.db.files ensures Backed(after.disk, after.db.files[f]) {
      assert Backed(st.disk, st.db.files[f]);
    }
    forall path | Home(path) in st.disk ensures Referenced(after.db, path) {
      assert Referenced(st.db, path);
      var f :| f in st.db.files && st.db.files[f].path == path;
      assert f in after.db.files && after.db.files[f].path == path;
    }
    FewerReferences(st.db, target);
    var kept := Keeping(AfterCrash(st), after.db).promised;
    forall x | x in kept ensures x in Promised(after) {
      var place :| place in st.disk && Referenced(st.db, place.path) && x == (place.path, st.disk[place]);
    }
    forall x | x in Promised(after) ensures x in kept {
      var place :| place in st.disk && Referenced(after.db, place.path) && x == (place.path, st.disk[place]);
      assert Referenced(st.db, place.path);
    }
    assert kept == Promised(after);
  }

  lemma FewerReferences(db: Db, target: Target)
    ensures forall path | Referenced(Deleted(db, target), path) :: Referenced(db, path)
  {
    forall path | Referenced(Deleted(db, target), path) ensures Referenced(db, path) {
      var f :| f in Deleted(db, target).files && Deleted(db, target).files[f].path == path;
      assert f in db.files;
    }
  }

  lemma ReceivingKeepsPromises(st: Store, after: Store, operation: Operation, path: Path, content: Content)
    requires AllBacked(st) && !Referenced(st.db, path)
    requires forall place | place in st.disk && place.path == path :: place == Slot(operation, path)
    requires after == st.(disk := st.disk[Slot(operation, path) := content])
    ensures AllBacked(after) && Promised(after) == Promised(st)
  {
    forall f | f in after.db.files ensures Backed(after.disk, after.db.files[f]) {
      assert Backed(st.disk, st.db.files[f]);
      var place := BackingPlace(st.disk, st.db.files[f]);
      assert place in after.disk && Referenced(st.db, place.path);
    }
    forall x | x in Promised(st) ensures x in Promised(after) {
      var place :| place in st.disk && Referenced(st.db, place.path) && x == (place.path, st.disk[place]);
      assert place in after.disk;
    }
    assert Promised(after) == Promised(st);
  }

  /** Receiving a file into a staging slot no row knows of. */
  lemma ReceivingKeepsMeaning(st: Store, after: Store, operation: Operation, path: Path, content: Content)
    requires Inv(st) && operation in st.operations && Stored(path) && Under(path, operation.token)
    requires !Referenced(st.db, path)
    requires forall place | place in st.disk && place.path == path :: place == Slot(operation, path)
    requires after == st.(disk := st.disk[Slot(operation, path) := content])
    ensures Inv(after) && AfterCrash(after) == AfterCrash(st)
  {
    hide Linked, DistinctFiles, RowsStored, AllBacked, Promised;
    ReceivingKeepsPromises(st, after, operation, path, content);
  }

  /** The promised contents once rows for some staged files are committed. */
  ghost function Adding(crash: Crash, rows: Db, contents: set<(Path, Content)>): Crash
    requires crash.Recovers?
  {
    Recovers(rows, crash.promised + contents)
  }
}
