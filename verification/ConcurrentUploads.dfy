/**
 * Any number of submissions storing files at once. Creates share the upload lock, so their single file operations and
 * commits interleave freely; a delete or a recovery holds it alone and is one step here, which may leave whatever state
 * the methods in Management and UploadDeletions, or a crash within them, may leave. The process may die between any two
 * steps.
 */
module ConcurrentUploads {
  import opened Wrappers
  import opened StoredPaths
  import opened Records
  import opened UploadStore
  import opened UploadServers
  import opened UploadDeletions
  import Management
  import opened Outbox
  import opened Submissions

  /** How far one create has come. It alone knows this, and a crash forgets it. */
  datatype Creator =
    | Receiving(done: map<Path, nat>, open: Option<Path>)
    | Discarding
    | Finishing(left: set<Path>)
    | Decided(left: set<Path>, path: Path, keep: bool)

  datatype Machine = Machine(st: Store, creators: map<string, Creator>)

  datatype Action =
    | Start(token: string)
    | Open(token: string, name: string)
    | Fill(token: string, bytes: seq<bv8>)
    | Fail(token: string)
    | Discard(token: string, path: Path)
    | Commit(token: string, rows: Db, submission: nat, form: FormSnapshot, ids: seq<nat>, records: seq<FileRow>)
    | Abandon(token: string)
    | Count(token: string, path: Path)
    | Restore(token: string)
    | Destroy(token: string)
    | Clash(token: string)
    | Close(token: string)
    | Leave(token: string)
    | Elsewhere(rows: Db)
    | Crash
    | Delete(target: Target, st: Store)
    | Recover(st: Store)

  function Op(token: string): Operation {
    Operation(Staging, token)
  }

  /** The records are one row for each received file. */
  ghost predicate OneRecordEach(done: map<Path, nat>, records: seq<FileRow>) {
    && (forall i | 0 <= i < |records| :: records[i].path in done && done[records[i].path] == records[i].size)
    && (forall path | path in done :: exists i :: 0 <= i < |records| && records[i].path == path)
    && DistinctPaths(records)
  }

  /** When a create can take a step: what its own code has checked, never what others are doing. */
  ghost predicate Enabled(m: Machine, a: Action) {
    match a
    case Start(t) => t !in m.creators && Fresh(m.st, t)
    case Open(t, name) =>
      t in m.creators && m.creators[t].Receiving? && m.creators[t].open.None? && Plain(name)
      && Slot(Op(t), [UPLOADS, t, name]) !in m.st.disk
    case Fill(t, _) => t in m.creators && m.creators[t].Receiving? && m.creators[t].open.Some?
    case Fail(t) => t in m.creators && m.creators[t].Receiving?
    case Discard(t, path) => t in m.creators && m.creators[t].Discarding? && Slot(Op(t), path) in m.st.disk
    case Commit(t, rows, submission, form, ids, records) =>
      t in m.creators && m.creators[t].Receiving? && m.creators[t].open.None?
      && OneRecordEach(m.creators[t].done, records) && Stores(m.st.db, rows, submission, form, false, ids, records)
    case Abandon(t) => t in m.creators && m.creators[t].Receiving? && m.creators[t].open.None?
    case Count(t, path) => t in m.creators && m.creators[t].Finishing? && path in m.creators[t].left
    case Restore(t) =>
      t in m.creators && m.creators[t].Decided? && m.creators[t].keep
      && Slot(Op(t), m.creators[t].path) in m.st.disk && Home(m.creators[t].path) !in m.st.disk
    case Destroy(t) => t in m.creators && m.creators[t].Decided? && !m.creators[t].keep
    case Clash(t) =>
      t in m.creators && m.creators[t].Decided? && m.creators[t].keep
      && Slot(Op(t), m.creators[t].path) in m.st.disk && Home(m.creators[t].path) in m.st.disk
    case Close(t) => t in m.creators && (m.creators[t] == Finishing({}) || m.creators[t].Discarding?)
    case Leave(t) => t in m.creators
    case Elsewhere(rows) => Linked(rows) && rows.files == m.st.db.files
    case Crash => true
    case Delete(target, st) => m.creators == map[] && MayFollowDelete(m.st, st, target)
    case Recover(st) => m.creators == map[] && MayFollowRecovery(m.st, st)
  }

  /**
   * A state some moment of a delete may leave: to a recovery it means what it meant, or the target
   * and its files are gone.
   */
  ghost predicate MayFollowDelete(before: Store, after: Store, target: Target) {
    && AfterCrash(before).Recovers?
    && (|| AfterCrash(after) == AfterCrash(before)
        || (Exists(before.db, target) && AfterCrash(after) == Keeping(AfterCrash(before), Deleted(before.db, target))))
  }

  /** A state some moment of a recovery may leave: to another recovery it means the same. */
  ghost predicate MayFollowRecovery(before: Store, after: Store) {
    AfterCrash(before).Recovers? && AfterCrash(after) == AfterCrash(before)
  }

  ghost function Step(m: Machine, a: Action): Machine
    requires Enabled(m, a)
  {
    match a
    case Start(t) =>
      Machine(m.st.(operations := m.st.operations + {Op(t)}, areas := m.st.areas + {Staging}),
          m.creators[t := Receiving(map[], None)])
    case Open(t, name) =>
      Machine(m.st.(disk := m.st.disk[Slot(Op(t), [UPLOADS, t, name]) := Partial]),
              m.creators[t := m.creators[t].(open := Some([UPLOADS, t, name]))])
    case Fill(t, bytes) =>
      var path := m.creators[t].open.value;
      Machine(m.st.(disk := m.st.disk[Slot(Op(t), path) := Complete(bytes)]),
              m.creators[t := Receiving(m.creators[t].done[path := |bytes|], None)])
    case Fail(t) => Machine(m.st, m.creators[t := Discarding])
    case Discard(t, path) => Machine(m.st.(disk := m.st.disk - {Slot(Op(t), path)}), m.creators)
    case Commit(t, rows, _, _, _, _) =>
      Machine(m.st.(db := rows), m.creators[t := Finishing(m.creators[t].done.Keys)])
    case Abandon(t) => Machine(m.st, m.creators[t := Finishing(m.creators[t].done.Keys)])
    case Count(t, path) => Machine(m.st, m.creators[t := Decided(m.creators[t].left, path, Referenced(m.st.db, path))])
    case Restore(t) =>
      var path := m.creators[t].path;
      Machine(m.st.(disk := Moved(m.st.disk, Slot(Op(t), path), Home(path))),
          m.creators[t := Finishing(m.creators[t].left - {path})])
    case Destroy(t) =>
      var path := m.creators[t].path;
      Machine(m.st.(disk := m.st.disk - {Slot(Op(t), path)}), m.creators[t := Finishing(m.creators[t].left - {path})])
    case Close(t) =>
      // the directory goes with whatever still lies in it
      Machine(m.st.(disk := map place | place in m.st.disk && !InOperation(place, Op(t)) :: m.st.disk[place],
                    operations := m.st.operations - {Op(t)}), m.creators - {t})
    case Clash(t) => Machine(m.st, m.creators - {t})
    case Leave(t) => Machine(m.st, m.creators - {t})
    case Elsewhere(rows) => Machine(m.st.(db := rows), m.creators)
    case Crash => Machine(m.st, map[])
    case Delete(_, st) => Machine(st, map[])
    case Recover(st) => Machine(st, map[])
  }

  /** What a create's note of itself has to do with the store. */
  ghost predicate Consistent(st: Store, t: string, c: Creator) {
    && Plain(t) && Op(t) in st.operations
    && match c
       case Receiving(done, open) =>
         && Owns(st, t)
         && (forall path | path in done :: Under(path, t) && Stored(path) && Slot(Op(t), path) in st.disk
               && st.disk[Slot(Op(t), path)].Complete? && |st.disk[Slot(Op(t), path)].bytes| == done[path])
         && (forall path {:trigger Slot(Op(t), path) in st.disk} :: Slot(Op(t), path) in st.disk ==>
             path in done || open == Some(path))
         && (open.Some? ==> Under(open.value, t) && Stored(open.value) && open.value !in done)
       case Discarding => Owns(st, t)
       case Finishing(left) => Remaining(st, t, left)
       case Decided(left, path, keep) => Remaining(st, t, left) && path in left && (keep <==> Referenced(st.db, path))
  }

  ghost predicate Remaining(st: Store, t: string, left: set<Path>) {
    && (forall path {:trigger Slot(Op(t), path) in st.disk} :: Slot(Op(t), path) in st.disk ==> path in left)
    && (forall path | path in left :: Under(path, t) && Stored(path))
  }

  ghost predicate MachineInv(m: Machine) {
    Inv(m.st) && forall t | t in m.creators :: Consistent(m.st, t, m.creators[t])
  }

  /** A step of another create changes nothing under this token. */
  ghost predicate Undisturbed(before: Store, after: Store, t: string) {
    && (forall place: Place {:trigger place in before.disk} {:trigger place in after.disk} | Under(place.path, t) ::
          (place in before.disk <==> place in after.disk)
              && (place in before.disk ==> after.disk[place] == before.disk[place]))
    && (forall path {:trigger Referenced(before.db, path)} {:trigger Referenced(after.db, path)} | Under(path, t) ::
          Referenced(before.db, path) <==> Referenced(after.db, path))
    && (Op(t) in before.operations ==> Op(t) in after.operations)
  }

  lemma UndisturbedStaysConsistent(before: Store, after: Store, t: string, c: Creator)
    requires Inv(before) && Inv(after) && Consistent(before, t, c) && Undisturbed(before, after, t)
    ensures Consistent(after, t, c)
  {
    forall path | Slot(Op(t), path) in after.disk ensures Under(path, t) && Slot(Op(t), path) in before.disk {
    }
    if c.Receiving? || c.Discarding? {
      forall place | place in after.disk && Under(place.path, t) ensures place == Slot(Op(t), place.path) {
        assert place in before.disk;
      }
      assert Owns(after, t);
    }
    if c.Receiving? {
      forall path | path in c.done
        ensures Slot(Op(t), path) in after.disk && after.disk[Slot(Op(t), path)] == before.disk[Slot(Op(t), path)]
      {
        assert Slot(Op(t), path) in before.disk;
      }
    }
  }

  /** Only files under one token, and rows for them, differ. */
  ghost predicate TouchesOnly(before: Store, after: Store, t: string) {
    && (forall place: Place {:trigger place in before.disk} {:trigger place in after.disk} | !Under(place.path, t) ::
          (place in before.disk <==> place in after.disk)
              && (place in before.disk ==> after.disk[place] == before.disk[place]))
    && (forall path {:trigger Referenced(before.db, path)} {:trigger Referenced(after.db, path)} | !Under(path, t) ::
          Referenced(before.db, path) <==> Referenced(after.db, path))
    && before.operations - {Op(t)} == after.operations - {Op(t)}
  }

  lemma OthersAreUndisturbed(before: Store, after: Store, t: string, other: string)
    requires TouchesOnly(before, after, t) && other != t
    ensures Undisturbed(before, after, other)
  {
    assert Op(other) in before.operations ==> Op(other) in before.operations - {Op(t)};
    forall path | Under(path, other) ensures !Under(path, t) {
    }
  }

  /** What one create's step keeps, seen from that create alone. */
  ghost predicate OwnStep(before: Store, after: Store, t: string) {
    Inv(after) && TouchesOnly(before, after, t) && Promised(before) <= Promised(after)
  }

  lemma StartOwn(st: Store, after: Store, t: string)
    requires Inv(st) && Fresh(st, t)
    requires after == st.(operations := st.operations + {Op(t)}, areas := st.areas + {Staging})
    ensures OwnStep(st, after, t) && Consistent(after, t, Receiving(map[], None))
  {
    DirectoryKeepsMeaning(st, after);
    FreshIsOwned(st, after, t);
  }

  lemma WriteOwn(st: Store, after: Store, t: string, path: Path, content: Content)
    requires Inv(st) && Owns(st, t) && Op(t) in st.operations && Stored(path) && Under(path, t)
    requires after == st.(disk := st.disk[Slot(Op(t), path) := content])
    ensures OwnStep(st, after, t) && Owns(after, t)
  {
    ReceivingOwned(st, after, t, path, content);
  }

  lemma DropOwn(st: Store, after: Store, t: string, path: Path)
    requires Inv(st) && Under(path, t) && !Referenced(st.db, path)
    requires after == st.(disk := st.disk - {Slot(Op(t), path)})
    ensures OwnStep(st, after, t)
  {
    DropKeepsMeaning(st, after, Slot(Op(t), path));
  }

  lemma RestoreOwn(st: Store, after: Store, t: string, path: Path)
    requires Inv(st) && Under(path, t) && Referenced(st.db, path) && Slot(Op(t), path) in st.disk
    requires after == st.(disk := Moved(st.disk, Slot(Op(t), path), Home(path)))
    ensures OwnStep(st, after, t)
  {
    MoveKeepsMeaning(st, after, Slot(Op(t), path), Home(path));
  }

  lemma CloseOwn(st: Store, after: Store, t: string)
    requires Inv(st) && forall path {:trigger Slot(Op(t), path) in st.disk} :: Slot(Op(t), path) in st.disk ==>
               !Referenced(st.db, path)
    requires after.db == st.db && after.areas == st.areas && after.operations == st.operations - {Op(t)}
    requires after.disk == map place | place in st.disk && !InOperation(place, Op(t)) :: st.disk[place]
    ensures OwnStep(st, after, t)
  {
    forall place | place in st.disk && (Referenced(st.db, place.path) || !Under(place.path, t))
      ensures place in after.disk {
      assert InOperation(place, Op(t)) ==> place == Slot(Op(t), place.path);
    }
    FewerFiles(st, after);
  }

  /** Removing only files that no row references. */
  lemma FewerFiles(st: Store, after: Store)
    requires AllBacked(st) && after.db == st.db
    requires forall place | place in st.disk && Referenced(st.db, place.path) :: place in after.disk
    requires forall place | place in after.disk :: place in st.disk && after.disk[place] == st.disk[place]
    ensures AllBacked(after) && Promised(st) <= Promised(after)
  {
    forall f | f in after.db.files ensures Backed(after.disk, after.db.files[f]) {
      assert Backed(st.disk, st.db.files[f]);
      var place := BackingPlace(st.disk, st.db.files[f]);
      assert Referenced(st.db, place.path);
      assert place in after.disk;
    }
    forall x | x in Promised(st) ensures x in Promised(after) {
      var place :| place in st.disk && Referenced(st.db, place.path) && x == (place.path, st.disk[place]);
      assert place in after.disk;
    }
  }

  lemma CommitOwn(st: Store, after: Store, t: string, done: map<Path, nat>, submission: nat, form: FormSnapshot,
                  ids: seq<nat>, records: seq<FileRow>)
    requires Inv(st) && Consistent(st, t, Receiving(done, None)) && OneRecordEach(done, records)
    requires after == st.(db := after.db) && Stores(st.db, after.db, submission, form, false, ids, records)
    ensures OwnStep(st, after, t) && Consistent(after, t, Finishing(done.Keys))
  {
    StoringKeepsLinks(st.db, after.db, submission, form, false, ids, records);
    CommittedRows(st, after, t, done, submission, form, ids, records);
    forall x | x in Promised(st) ensures x in Promised(after) {
      var place :| place in st.disk && Referenced(st.db, place.path) && x == (place.path, st.disk[place]);
      assert Referenced(after.db, place.path);
    }
    forall path | Home(path) in after.disk ensures Referenced(after.db, path) {
      assert Referenced(st.db, path);
    }
    CommittedAreDistinct(st, after, t, done, submission, form, ids, records);
  }

  lemma CommittedAreDistinct(st: Store, after: Store, t: string, done: map<Path, nat>, submission: nat,
                             form: FormSnapshot, ids: seq<nat>, records: seq<FileRow>)
    requires Inv(st) && Consistent(st, t, Receiving(done, None)) && OneRecordEach(done, records)
    requires Stores(st.db, after.db, submission, form, false, ids, records)
    ensures DistinctFiles(after.db.files)
  {
    forall i, f | 0 <= i < |records| && f in st.db.files ensures st.db.files[f].path != records[i].path {
      assert records[i].path in done;
      assert !Referenced(st.db, records[i].path);
    }
    AddedFilesAreDistinct(st.db.files, after.db.files, ids, submission, records);
  }

  lemma CommittedRows(st: Store, after: Store, t: string, done: map<Path, nat>, submission: nat, form: FormSnapshot,
                      ids: seq<nat>, records: seq<FileRow>)
    requires AllBacked(st) && RowsStored(st.db) && Consistent(st, t, Receiving(done, None))
               && OneRecordEach(done, records)
    requires after == st.(db := after.db) && Stores(st.db, after.db, submission, form, false, ids, records)
    ensures AllBacked(after) && RowsStored(after.db)
    ensures forall path {:trigger Referenced(st.db, path)} :: Referenced(st.db, path) ==> Referenced(after.db, path)
    ensures forall path {:trigger Referenced(after.db, path)} :: Referenced(after.db, path) && !Under(path, t) ==>
              Referenced(st.db, path)
  {
    forall f | f in after.db.files
      ensures Backed(after.disk, after.db.files[f]) && Stored(after.db.files[f].path)
      ensures f in st.db.files || Under(after.db.files[f].path, t)
    {
      if f in st.db.files {
        assert Backed(st.disk, st.db.files[f]);
      } else {
        var i :| 0 <= i < |ids| && ids[i] == f;
        assert Slot(Op(t), records[i].path) in after.disk;
      }
    }
    forall path | Referenced(st.db, path) ensures Referenced(after.db, path) {
      var f :| f in st.db.files && st.db.files[f].path == path;
      assert after.db.files[f].path == path;
    }
    forall path | Referenced(after.db, path) && !Under(path, t) ensures Referenced(st.db, path) {
      var f :| f in after.db.files && after.db.files[f].path == path;
      assert st.db.files[f].path == path;
    }
  }

  /** One step under a token: its own note stays consistent, and whoever else is at work notices nothing. */
  lemma Assemble(m: Machine, m': Machine, t: string)
    requires MachineInv(m) && OwnStep(m.st, m'.st, t)
    requires t in m'.creators ==> Consistent(m'.st, t, m'.creators[t])
    requires forall other | other in m'.creators && other != t ::
               other in m.creators && m'.creators[other] == m.creators[other]
    ensures MachineInv(m')
  {
    forall other | other in m'.creators && other != t ensures Consistent(m'.st, other, m'.creators[other]) {
      assert Consistent(m.st, other, m.creators[other]);
      OthersAreUndisturbed(m.st, m'.st, t, other);
      UndisturbedStaysConsistent(m.st, m'.st, other, m.creators[other]);
    }
  }

  lemma StartKeeps(m: Machine, t: string)
    requires MachineInv(m) && Enabled(m, Start(t))
    ensures Keeps(m, Start(t))
  {
    var m' := Step(m, Start(t));
    StartOwn(m.st, m'.st, t);
    Assemble(m, m', t);
  }

  lemma OpenKeeps(m: Machine, t: string, name: string)
    requires MachineInv(m) && Enabled(m, Open(t, name))
    ensures Keeps(m, Open(t, name))
  {
    var m' := Step(m, Open(t, name));
    assert Consistent(m.st, t, m.creators[t]);
    WriteOwn(m.st, m'.st, t, [UPLOADS, t, name], Partial);
    hide Inv, Owns, Promised, TouchesOnly;
    Assemble(m, m', t);
  }

  lemma FillKeeps(m: Machine, t: string, bytes: seq<bv8>)
    requires MachineInv(m) && Enabled(m, Fill(t, bytes))
    ensures Keeps(m, Fill(t, bytes))
  {
    var m' := Step(m, Fill(t, bytes));
    WriteOwn(m.st, m'.st, t, m.creators[t].open.value, Complete(bytes));
    Assemble(m, m', t);
  }

  lemma DiscardKeeps(m: Machine, t: string, path: Path)
    requires MachineInv(m) && Enabled(m, Discard(t, path))
    ensures Keeps(m, Discard(t, path))
  {
    var m' := Step(m, Discard(t, path));
    DropOwn(m.st, m'.st, t, path);
    Assemble(m, m', t);
  }

  lemma CommitKeeps(m: Machine, a: Action)
    requires MachineInv(m) && Enabled(m, a) && a.Commit?
    ensures Keeps(m, a)
  {
    var m', t := Step(m, a), a.token;
    CommitOwn(m.st, m'.st, t, m.creators[t].done, a.submission, a.form, a.ids, a.records);
    Assemble(m, m', t);
  }

  /** Steps that only change what a create knows. */
  lemma NoteKeeps(m: Machine, a: Action)
    requires MachineInv(m) && Enabled(m, a) && (a.Fail? || a.Abandon? || a.Count? || a.Clash? || a.Leave?)
    ensures Keeps(m, a)
  {
    assert Consistent(m.st, a.token, m.creators[a.token]);
    Assemble(m, Step(m, a), a.token);
  }

  lemma RestoreKeeps(m: Machine, t: string)
    requires MachineInv(m) && Enabled(m, Restore(t))
    ensures Keeps(m, Restore(t))
  {
    var m' := Step(m, Restore(t));
    RestoreNoted(m, t);
    hide Inv, Consistent, Promised, TouchesOnly;
    RestoreOwn(m.st, m'.st, t, m.creators[t].path);
    Assemble(m, m', t);
  }

  lemma RestoreNoted(m: Machine, t: string)
    requires MachineInv(m) && Enabled(m, Restore(t))
    ensures Under(m.creators[t].path, t) && Referenced(m.st.db, m.creators[t].path)
    ensures Consistent(Step(m, Restore(t)).st, t, Step(m, Restore(t)).creators[t])
  {
    hide Inv, Referenced;
    assert Consistent(m.st, t, m.creators[t]);
  }

  lemma DestroyKeeps(m: Machine, t: string)
    requires MachineInv(m) && Enabled(m, Destroy(t))
    ensures Keeps(m, Destroy(t))
  {
    var m' := Step(m, Destroy(t));
    DropOwn(m.st, m'.st, t, m.creators[t].path);
    Assemble(m, m', t);
  }

  lemma CloseKeeps(m: Machine, t: string)
    requires MachineInv(m) && Enabled(m, Close(t))
    ensures Keeps(m, Close(t))
  {
    var m' := Step(m, Close(t));
    assert Consistent(m.st, t, m.creators[t]);
    CloseOwn(m.st, m'.st, t);
    Assemble(m, m', t);
  }

  /** A transaction that leaves the file rows alone. */
  lemma ElsewhereKeeps(m: Machine, a: Action)
    requires MachineInv(m) && Enabled(m, a) && a.Elsewhere?
    ensures Keeps(m, a)
  {
    var st, after := m.st, Step(m, a).st;
    assert forall path :: Referenced(after.db, path) <==> Referenced(st.db, path);
    forall f | f in after.db.files ensures Backed(after.disk, after.db.files[f]) && Stored(after.db.files[f].path) {
      assert Backed(st.disk, st.db.files[f]);
    }
    assert Promised(after) == Promised(st);
    forall t | t in m.creators ensures Consistent(after, t, m.creators[t]) {
      UndisturbedStaysConsistent(st, after, t, m.creators[t]);
    }
  }

  /** The invariant holds after the step, and every promised content stays promised unless its rows went. */
  ghost predicate Keeps(m: Machine, a: Action)
    requires Enabled(m, a)
  {
    && MachineInv(Step(m, a)) && ContentKept(m.st, Step(m, a).st)
    && (!a.Delete? ==> Promised(m.st) <= Promised(Step(m, a).st))
  }

  ghost predicate ContentKept(before: Store, after: Store) {
    forall x {:trigger x in Promised(before)} | x in Promised(before) && Referenced(after.db, x.0) ::
        x in Promised(after)
  }

  lemma DeleteKeeps(m: Machine, target: Target, st: Store)
    requires MachineInv(m) && Enabled(m, Delete(target, st))
    ensures Keeps(m, Delete(target, st))
    ensures forall f | f in st.db.files :: f in m.st.db.files && m.st.db.files[f] == st.db.files[f]
  {
    assert AfterCrash(m.st) == Recovers(m.st.db, Promised(m.st));
    assert Inv(st) && AfterCrash(st) == Recovers(st.db, Promised(st));
  }

  lemma RecoverKeeps(m: Machine, st: Store)
    requires MachineInv(m) && Enabled(m, Recover(st))
    ensures Keeps(m, Recover(st)) && st.db == m.st.db && Promised(st) == Promised(m.st)
  {
    assert AfterCrash(m.st) == Recovers(m.st.db, Promised(m.st));
    assert Inv(st) && AfterCrash(st) == Recovers(st.db, Promised(st));
  }

  lemma StepKeeps(m: Machine, a: Action)
    requires MachineInv(m) && Enabled(m, a)
    ensures Keeps(m, a)
  {
    match a
    case Start(t) => StartKeeps(m, t);
    case Open(t, name) => OpenKeeps(m, t, name);
    case Fill(t, bytes) => FillKeeps(m, t, bytes);
    case Discard(t, path) => DiscardKeeps(m, t, path);
    case Commit(_, _, _, _, _, _) => CommitKeeps(m, a);
    case Restore(t) => RestoreKeeps(m, t);
    case Destroy(t) => DestroyKeeps(m, t);
    case Close(t) => CloseKeeps(m, t);
    case Elsewhere(_) => ElsewhereKeeps(m, a);
    case Crash =>
    case Delete(target, st) => DeleteKeeps(m, target, st);
    case Recover(st) => RecoverKeeps(m, st);
    case _ => NoteKeeps(m, a);
  }

  /** Each state follows from the one before by an enabled action. */
  ghost predicate Run(states: seq<Machine>, actions: seq<Action>) {
    && |states| == |actions| + 1
    && forall i | 0 <= i < |actions| :: Enabled(states[i], actions[i]) && states[i + 1] == Step(states[i], actions[i])
  }

  lemma RunStepKeeps(states: seq<Machine>, actions: seq<Action>, i: nat)
    requires Run(states, actions) && i < |actions| && MachineInv(states[i])
    ensures MachineInv(states[i + 1]) && ContentKept(states[i].st, states[i + 1].st)
  {
    StepKeeps(states[i], actions[i]);
  }

  /**
   * However creates interleave and wherever the process dies: every committed row has its whole content in exactly
   * one place, and whatever lies at a storage path is referenced.
   */
  lemma {:induction false} EveryRunIsSafe(states: seq<Machine>, actions: seq<Action>, i: nat)
    requires Run(states, actions) && MachineInv(states[0]) && i < |states|
    ensures MachineInv(states[i])
  {
    if i > 0 {
      EveryRunIsSafe(states, actions, i - 1);
      RunStepKeeps(states, actions, i - 1);
    }
  }

  /** The content promised to a path stays the same for as long as some row references the path, deletes or not. */
  lemma {:induction false} NothingPromisedIsLost(states: seq<Machine>, actions: seq<Action>, i: nat, path: Path,
                                content: Content)
    requires Run(states, actions) && MachineInv(states[0]) && i < |states|
    requires (path, content) in Promised(states[0].st)
    requires forall j | 0 <= j <= i :: Referenced(states[j].st.db, path)
    ensures (path, content) in Promised(states[i].st)
  {
    hide MachineInv, Promised, Referenced;
    if i > 0 {
      NothingPromisedIsLost(states, actions, i - 1, path, content);
      EveryRunIsSafe(states, actions, i - 1);
      RunStepKeeps(states, actions, i - 1);
    }
  }

  /** No create ever finds the place of its file taken when it moves the file in. */
  lemma NeverAClash(states: seq<Machine>, actions: seq<Action>, i: nat)
    requires Run(states, actions) && MachineInv(states[0]) && i < |actions|
    ensures !actions[i].Clash?
  {
    EveryRunIsSafe(states, actions, i);
  }

  const EMPTY_STORE := Store(Db({}, map[], map[], map[], map[], map[]), map[], {}, {})

  /** A process that starts on a sound store, an empty one for instance, is in a safe state. */
  lemma StartIsSafe(st: Store)
    ensures Inv(EMPTY_STORE) && (Inv(st) ==> MachineInv(Machine(st, map[])))
  {
    assert forall path :: !Referenced(EMPTY_STORE.db, path);
  }

  /** A whole delete is a step of the machine, and so is a delete cut short by a crash at any moment. */
  method DeleteAlone(s: Server, target: Target) returns (deleteErr: Error, cleanupErr: Error)
    requires s.Valid() && Inv(s.Now())
    modifies s`db, s`disk, s`operations, s`areas, s`log, s`locks
    ensures s.Valid() && old(s.log) <= s.log
    ensures Enabled(Machine(old(s.Now()), map[]), Delete(target, s.Now()))
    ensures forall k, st | old(|s.log|) <= k < |s.log| && AfterCrash(st) == s.log[k] ::
              Enabled(Machine(old(s.Now()), map[]), Delete(target, st))
  {
    ghost var point;
    deleteErr, cleanupErr, point := Management.Delete(s, target);
    assert s.log[|s.log| - 1] == AfterCrash(s.Now());
  }

  /** The same for a recovery, which may itself be cut short. */
  method RecoverAlone(s: Server) returns (err: Error)
    requires s.Valid() && Inv(s.Now())
    modifies s`disk, s`operations, s`areas, s`log, s`locks
    ensures s.Valid() && old(s.log) <= s.log
    ensures Enabled(Machine(old(s.Now()), map[]), Recover(s.Now()))
    ensures err == NoError ==> Settled(s.Now())
    ensures forall k, st | old(|s.log|) <= k < |s.log| && AfterCrash(st) == s.log[k] ::
              Enabled(Machine(old(s.Now()), map[]), Recover(st))
  {
    err := RecoverUploadDeletions(s);
  }

  /** Some run of the machine passes through the state. */
  ghost predicate Passes(start: Machine, m: Machine) {
    exists states, actions :: Run(states, actions) && states[0] == start && states[|actions|] == m
  }

  lemma PassesAtOnce(start: Machine)
    ensures Passes(start, start)
  {
    assert Run([start], []);
  }

  lemma PassesOn(start: Machine, m: Machine, a: Action)
    requires Passes(start, m) && Enabled(m, a)
    ensures Passes(start, Step(m, a))
  {
    var states, actions :| Run(states, actions) && states[0] == start && states[|actions|] == m;
    assert Run(states + [Step(m, a)], actions + [a]);
  }

  function SizesOf(token: string, uploads: seq<Upload>): map<Path, nat> {
    if uploads == [] then map[]
    else
      var last := uploads[|uploads| - 1];
      SizesOf(token, uploads[..|uploads| - 1])[UploadPath(token, last) := |last.bytes|]
  }

  /** The create with this token has received these uploads, and no other create is at work. */
  ghost predicate HasReceived(start: Store, m: Machine, token: string, uploads: seq<Upload>) {
    && m.creators == map[token := Receiving(SizesOf(token, uploads), None)] && MachineInv(m)
    && m.st.db == start.db && AfterCrash(m.st) == AfterCrash(start)
    && m.st.operations == start.operations + {Op(token)} && Received(start.disk, m.st.disk, token, uploads)
  }

  lemma {:induction false} SizedPaths(token: string, uploads: seq<Upload>, path: Path)
    ensures path in SizesOf(token, uploads) <==> exists i :: 0 <= i < |uploads| && UploadPath(token, uploads[i]) == path
  {
    if uploads != [] {
      var n := |uploads| - 1;
      SizedPaths(token, uploads[..n], path);
      if i :| 0 <= i < n && UploadPath(token, uploads[i]) == path {
        assert uploads[..n][i] == uploads[i];
      }
    }
  }

  lemma {:induction false} SizeOfUpload(token: string, uploads: seq<Upload>, i: nat)
    requires DistinctUploads(uploads) && i < |uploads|
    ensures UploadPath(token, uploads[i]) in SizesOf(token, uploads)
    ensures SizesOf(token, uploads)[UploadPath(token, uploads[i])] == |uploads[i].bytes|
  {
    var n := |uploads| - 1;
    if i < n {
      SizeOfUpload(token, uploads[..n], i);
      assert uploads[i].name != uploads[n].name;
    }
  }

  lemma StartReceives(st: Store, token: string)
    requires Inv(st) && Fresh(st, token)
    ensures
      var start := Machine(st, map[]);
      && Enabled(start, Start(token)) && Passes(start, Step(start, Start(token)))
      && HasReceived(st, Step(start, Start(token)), token, [])
  {
    var start := Machine(st, map[]);
    PassesAtOnce(start);
    PassesOn(start, start, Start(token));
    StartKeeps(start, token);
    DirectoryKeepsMeaning(st, Step(start, Start(token)).st);
  }

  lemma OpenIsEnabled(m: Machine, token: string, uploads: seq<Upload>, upload: Upload)
    requires MachineInv(m) && m.creators == map[token := Receiving(SizesOf(token, uploads), None)]
    requires Plain(upload.name) && forall u | u in uploads :: u.name != upload.name
    ensures Enabled(m, Open(token, upload.name))
  {
    var path := UploadPath(token, upload);
    assert Consistent(m.st, token, m.creators[token]);
    SizedPaths(token, uploads, path);
    assert path !in SizesOf(token, uploads);
  }

  /** The same, and the file of one more upload is open. */
  ghost predicate HasOpen(start: Store, m: Machine, token: string, uploads: seq<Upload>, upload: Upload) {
    && m.creators == map[token := Receiving(SizesOf(token, uploads), Some(UploadPath(token, upload)))] && MachineInv(m)
    && m.st.db == start.db && AfterCrash(m.st) == AfterCrash(start)
    && m.st.operations == start.operations + {Op(token)} && UploadSlot(token, upload) in m.st.disk
    && Received(start.disk, m.st.disk - {UploadSlot(token, upload)}, token, uploads)
  }

  lemma WriteKeepsMeaning(m: Machine, token: string, path: Path, content: Content)
    requires MachineInv(m) && token in m.creators && m.creators[token].Receiving?
    requires Stored(path) && Under(path, token)
    ensures AfterCrash(m.st.(disk := m.st.disk[Slot(Op(token), path) := content])) == AfterCrash(m.st)
  {
    assert Consistent(m.st, token, m.creators[token]);
    ReceivingOwned(m.st, m.st.(disk := m.st.disk[Slot(Op(token), path) := content]), token, path, content);
  }

  lemma OpenOneMore(start: Store, m: Machine, token: string, uploads: seq<Upload>, upload: Upload)
    requires HasReceived(start, m, token, uploads) && Plain(upload.name) && Plain(token)
    requires forall u | u in uploads :: u.name != upload.name
    ensures
      var open := Open(token, upload.name);
      Enabled(m, open) && HasOpen(start, Step(m, open), token, uploads, upload)
  {
    hide MachineInv, AfterCrash, Consistent, SizesOf, ContentKept, Promised, Received;
    OpenIsEnabled(m, token, uploads, upload);
    var slot := UploadSlot(token, upload);
    assert m.st.disk[slot := Partial] - {slot} == m.st.disk;
    OpenKeeps(m, token, upload.name);
    WriteKeepsMeaning(m, token, UploadPath(token, upload), Partial);
  }

  lemma OneMoreSize(token: string, uploads: seq<Upload>, upload: Upload)
    ensures SizesOf(token, uploads + [upload]) == SizesOf(token, uploads)[UploadPath(token, upload) := |upload.bytes|]
  {
    assert (uploads + [upload])[..|uploads|] == uploads;
  }

  lemma FillOneMore(start: Store, m: Machine, token: string, uploads: seq<Upload>, upload: Upload)
    requires HasOpen(start, m, token, uploads, upload) && Plain(upload.name) && Plain(token)
    requires forall u | u in uploads :: u.name != upload.name
    ensures
      var fill := Fill(token, upload.bytes);
      Enabled(m, fill) && HasReceived(start, Step(m, fill), token, uploads + [upload])
  {
    hide MachineInv, AfterCrash, Consistent, ContentKept, Promised, SizesOf, Received;
    var slot := UploadSlot(token, upload);
    ReceivedOneMore(start.disk, m.st.disk - {slot}, token, uploads, upload);
    assert (m.st.disk - {slot})[slot := Complete(upload.bytes)] == m.st.disk[slot := Complete(upload.bytes)];
    OneMoreSize(token, uploads, upload);
    FillKeeps(m, token, upload.bytes);
    WriteKeepsMeaning(m, token, UploadPath(token, upload), Complete(upload.bytes));
  }

  lemma ReceiveOneMore(start: Store, before: Machine, token: string, uploads: seq<Upload>, upload: Upload)
    returns (m: Machine)
    requires Passes(Machine(start, map[]), before) && HasReceived(start, before, token, uploads)
    requires Plain(token) && Plain(upload.name) && forall u | u in uploads :: u.name != upload.name
    ensures Passes(Machine(start, map[]), m) && HasReceived(start, m, token, uploads + [upload])
  {
    hide HasReceived, HasOpen, Passes, Enabled, Step, Plain;
    OpenOneMore(start, before, token, uploads, upload);
    PassesOn(Machine(start, map[]), before, Open(token, upload.name));
    var mid := Step(before, Open(token, upload.name));
    FillOneMore(start, mid, token, uploads, upload);
    PassesOn(Machine(start, map[]), mid, Fill(token, upload.bytes));
    m := Step(mid, Fill(token, upload.bytes));
  }

  lemma {:induction false} ReceivingRun(start: Store, token: string, uploads: seq<Upload>) returns (m: Machine)
    requires Inv(start) && Fresh(start, token) && Plain(token) && DistinctUploads(uploads)
    requires forall u | u in uploads :: Plain(u.name)
    ensures Passes(Machine(start, map[]), m) && HasReceived(start, m, token, uploads)
  {
    hide HasReceived, Passes, Fresh, Inv, Enabled, Plain, Step;
    if uploads == [] {
      StartReceives(start, token);
      m := Step(Machine(start, map[]), Start(token));
    } else {
      var n := |uploads| - 1;
      var before := ReceivingRun(start, token, uploads[..n]);
      m := ReceiveOneMore(start, before, token, uploads[..n], uploads[n]);
      assert uploads[..n] + [uploads[n]] == uploads;
    }
  }

  lemma RecordsForAll(token: string, uploads: seq<Upload>)
    requires DistinctUploads(uploads)
    ensures OneRecordEach(SizesOf(token, uploads), RecordsOf(token, uploads))
  {
    var records := RecordsOf(token, uploads);
    forall i | 0 <= i < |records|
      ensures records[i].path in SizesOf(token, uploads) && SizesOf(token, uploads)[records[i].path] == records[i].size
    {
      SizeOfUpload(token, uploads, i);
    }
    forall path | path in SizesOf(token, uploads) ensures exists i :: 0 <= i < |records| && records[i].path == path {
      SizedPaths(token, uploads, path);
      var i :| 0 <= i < |uploads| && UploadPath(token, uploads[i]) == path;
      assert records[i].path == path;
    }
  }

  /** A create that has decided moves its files in or destroys them, one after another, and closes its directory. */
  lemma {:induction false} FinishingRun(start: Machine, m: Machine, mid: map<Place, Content>, token: string,
                                        left: set<Path>)
    returns (after: Machine)
    requires Passes(start, m) && MachineInv(m) && m.creators == map[token := Finishing(left)]
    requires Progress(mid, m.st.disk, m.st.db, Op(token))
    requires forall path | path in left :: Slot(Op(token), path) in m.st.disk
    ensures Passes(start, after) && after.creators == map[]
    ensures after.st.db == m.st.db && after.st.operations == m.st.operations - {Op(token)}
    ensures Finished(mid, after.st.disk, m.st.db, Op(token))
    decreases |left|
  {
    if left == {} {
      after := ClosingStep(start, m, token);
    } else {
      var path :| path in left;
      var next := OneFileLess(start, m, mid, token, left, path);
      after := FinishingRun(start, next, mid, token, left - {path});
    }
  }

  lemma ClosingStep(start: Machine, m: Machine, token: string) returns (after: Machine)
    requires Passes(start, m) && MachineInv(m) && m.creators == map[token := Finishing({})]
    ensures Passes(start, after) && after.creators == map[]
    ensures after.st.db == m.st.db && after.st.operations == m.st.operations - {Op(token)}
    ensures after.st.disk == m.st.disk && Emptied(m.st.disk, Op(token))
  {
    PassesOn(start, m, Close(token));
    after := Step(m, Close(token));
    assert Consistent(m.st, token, m.creators[token]);
    assert forall place | place in m.st.disk && InOperation(place, Op(token)) :: place == Slot(Op(token), place.path);
  }

  lemma OneFileLess(start: Machine, m: Machine, mid: map<Place, Content>, token: string, left: set<Path>, path: Path)
    returns (next: Machine)
    requires Passes(start, m) && MachineInv(m) && m.creators == map[token := Finishing(left)]
    requires Progress(mid, m.st.disk, m.st.db, Op(token))
    requires path in left && forall other | other in left :: Slot(Op(token), other) in m.st.disk
    ensures Passes(start, next) && MachineInv(next) && next.creators == map[token := Finishing(left - {path})]
    ensures next.st.db == m.st.db && next.st.operations == m.st.operations
    ensures Progress(mid, next.st.disk, m.st.db, Op(token))
    ensures forall other | other in left - {path} :: Slot(Op(token), other) in next.st.disk
  {
    hide Inv, Passes, Consistent, Referenced, Progress, ContentKept, Promised;
    PassesOn(start, m, Count(token, path));
    var decided := Step(m, Count(token, path));
    NoteKeeps(m, Count(token, path));
    if Referenced(m.st.db, path) {
      HomeIsFree(m, token, path);
      PassesOn(start, decided, Restore(token));
      RestoreKeeps(decided, token);
      PuttingBackIsProgress(mid, m.st.disk, m.st.db, Op(token), path);
      next := Step(decided, Restore(token));
    } else {
      PassesOn(start, decided, Destroy(token));
      DestroyKeeps(decided, token);
      DestroyingIsProgress(mid, m.st.disk, m.st.db, Op(token), path);
      next := Step(decided, Destroy(token));
    }
  }

  lemma HomeIsFree(m: Machine, token: string, path: Path)
    requires MachineInv(m) && Slot(Op(token), path) in m.st.disk
    ensures Home(path) !in m.st.disk
  {
  }

  /** Whatever a create decides, a run carries it out: all files at their paths, or everything as it was before. */
  lemma DecidedIsCarriedOut(start: Store, m: Machine, token: string, uploads: seq<Upload>) returns (after: Machine)
    requires Inv(start) && Fresh(start, token) && Passes(Machine(start, map[]), m) && MachineInv(m)
    requires Received(start.disk, m.st.disk, token, uploads) && m.st.operations == start.operations + {Op(token)}
    requires m.creators == map[token := Finishing(SizesOf(token, uploads).Keys)]
    ensures Passes(Machine(start, map[]), after) && after.creators == map[]
    ensures after.st.db == m.st.db && after.st.operations == start.operations
    ensures (forall u | u in uploads :: Referenced(m.st.db, UploadPath(token, u))) ==>
              Arrived(start.disk, after.st.disk, token, uploads)
    ensures (forall u | u in uploads :: !Referenced(m.st.db, UploadPath(token, u))) ==> after.st.disk == start.disk
  {
    FreshIsOwned(start, start, token);
    assert Op(token) !in start.operations;
    SlotsAreThere(start.disk, m.st.disk, token, uploads);
    UniqueInMachine(m);
    NothingDone(m.st.disk, m.st.db, Op(token));
    hide Inv, Fresh, Passes, MachineInv, Received, Finished, Referenced, Arrived, SizesOf, Unique, Emptied, Progress;
    after := FinishingRun(Machine(start, map[]), m, m.st.disk, token, SizesOf(token, uploads).Keys);
    FinishingReceived(start.disk, m.st.disk, after.st.disk, m.st.db, token, uploads);
  }

  lemma UniqueInMachine(m: Machine)
    requires MachineInv(m)
    ensures Unique(m.st.disk)
  {
  }

  lemma NothingDone(disk: map<Place, Content>, rows: Db, operation: Operation)
    ensures Progress(disk, disk, rows, operation)
  {
  }

  lemma SlotsAreThere(before: map<Place, Content>, disk: map<Place, Content>, token: string, uploads: seq<Upload>)
    requires Received(before, disk, token, uploads)
    ensures forall path | path in SizesOf(token, uploads) :: Slot(Op(token), path) in disk
  {
    forall path | path in SizesOf(token, uploads) ensures Slot(Op(token), path) in disk {
      SizedPaths(token, uploads, path);
      var i :| 0 <= i < |uploads| && UploadPath(token, uploads[i]) == path;
      assert uploads[i] in uploads;
    }
  }

  lemma CommitIsCarriedOut(start: Store, received: Machine, token: string, uploads: seq<Upload>, a: Action)
    returns (m: Machine, after: Machine)
    requires Inv(start) && Fresh(start, token) && Passes(Machine(start, map[]), received)
    requires HasReceived(start, received, token, uploads)
    requires a.Commit? && a.token == token && a.records == RecordsOf(token, uploads) && Enabled(received, a)
    ensures m.st == received.st.(db := a.rows) && Passes(Machine(start, map[]), m)
    ensures Passes(Machine(start, map[]), after) && after.creators == map[]
    ensures after.st.db == a.rows && after.st.operations == start.operations
    ensures Arrived(start.disk, after.st.disk, token, uploads)
  {
    hide Inv, Fresh, Passes, MachineInv, Received, Referenced, Arrived, Consistent, Stores, ContentKept, OneRecordEach;
    PassesOn(Machine(start, map[]), received, a);
    m := Step(received, a);
    CommitKeeps(received, a);
    StoredAreReferenced(start.db, a.rows, a.submission, a.form, false, a.ids, token, uploads);
    after := DecidedIsCarriedOut(start, m, token, uploads);
  }

  lemma AbandonIsCarriedOut(start: Store, received: Machine, token: string, uploads: seq<Upload>)
    returns (after: Machine)
    requires Inv(start) && Fresh(start, token) && Passes(Machine(start, map[]), received)
    requires HasReceived(start, received, token, uploads)
    ensures Passes(Machine(start, map[]), after) && after.creators == map[]
    ensures after.st.db == start.db && after.st.operations == start.operations && after.st.disk == start.disk
  {
    hide Inv, Fresh, Passes, MachineInv, Received, Referenced, Arrived, Owns, SizesOf;
    OwnedWhileReceiving(received, token);
    UnstoredAreUnreferenced(received.st, token, uploads);
    var m := AbandoningStep(start, received, token, SizesOf(token, uploads));
    after := DecidedIsCarriedOut(start, m, token, uploads);
  }

  lemma AbandoningStep(start: Store, received: Machine, token: string, done: map<Path, nat>) returns (m: Machine)
    requires Passes(Machine(start, map[]), received) && MachineInv(received)
    requires received.creators == map[token := Receiving(done, None)]
    ensures Passes(Machine(start, map[]), m) && MachineInv(m)
    ensures m.st == received.st && m.creators == map[token := Finishing(done.Keys)]
  {
    hide Passes, MachineInv, ContentKept, Promised;
    PassesOn(Machine(start, map[]), received, Abandon(token));
    m := Step(received, Abandon(token));
    NoteKeeps(received, Abandon(token));
  }

  lemma OwnedWhileReceiving(m: Machine, token: string)
    requires MachineInv(m) && token in m.creators && m.creators[token].Receiving?
    ensures Owns(m.st, token)
  {
    assert Consistent(m.st, token, m.creators[token]);
  }

  /**
   * A create that stored files, in the machine's steps: the uploads are received one by one and committed, and then
   * the files are moved in until nothing of the operation is left.
   */
  lemma CreatedByARun(start: Store, rows: Db, token: string, uploads: seq<Upload>, submission: nat, form: FormSnapshot,
                      ids: seq<nat>)
    returns (m: Machine, after: Machine)
    requires Inv(start) && Fresh(start, token) && DistinctUploads(uploads)
    requires forall i | 0 <= i < |uploads| :: Plain(uploads[i].name)
    requires Stores(start.db, rows, submission, form, false, ids, RecordsOf(token, uploads))
    ensures Passes(Machine(start, map[]), m) && Passes(Machine(start, map[]), after)
    ensures AfterCrash(m.st) == Adding(AfterCrash(start), rows, Contents(token, uploads))
    ensures after.creators == map[] && after.st.db == rows && after.st.operations == start.operations
    ensures Arrived(start.disk, after.st.disk, token, uploads)
  {
    assert Plain(token) && forall u | u in uploads :: Plain(u.name);
    var commit := Commit(token, rows, submission, form, ids, RecordsOf(token, uploads));
    hide Arrived, Inv, Fresh, Passes, HasReceived, Stores, DistinctUploads, Enabled, Ready, Contents, AfterCrash, Plain;
    var received := ReceivingRun(start, token, uploads);
    ReadyToCommit(start, received, token, uploads, commit);
    m, after := CommitIsCarriedOut(start, received, token, uploads, commit);
    CommittingCreate(received.st, m.st, token, uploads, submission, form, false, ids);
  }

  lemma ReadyToCommit(start: Store, received: Machine, token: string, uploads: seq<Upload>, a: Action)
    requires HasReceived(start, received, token, uploads) && DistinctUploads(uploads)
    requires Plain(token) && forall u | u in uploads :: Plain(u.name)
    requires a.Commit? && a.token == token && a.records == RecordsOf(token, uploads)
    requires Stores(start.db, a.rows, a.submission, a.form, false, a.ids, a.records)
    ensures Enabled(received, a) && Inv(received.st) && Ready(received.st, token, uploads)
    ensures received.st.db == start.db && AfterCrash(received.st) == AfterCrash(start)
  {
    hide Stores, AfterCrash, Inv;
    RecordsForAll(token, uploads);
    OwnedWhileReceiving(received, token);
  }

  /** And one that could not commit: everything received is destroyed again. */
  lemma AbandonedByARun(start: Store, token: string, uploads: seq<Upload>) returns (after: Machine)
    requires Inv(start) && Fresh(start, token) && DistinctUploads(uploads)
    requires forall i | 0 <= i < |uploads| :: Plain(uploads[i].name)
    ensures Passes(Machine(start, map[]), after) && after.creators == map[]
    ensures after.st.db == start.db && after.st.disk == start.disk && after.st.operations == start.operations
  {
    var received := ReceivingRun(start, token, uploads);
    after := AbandonIsCarriedOut(start, received, token, uploads);
  }

  /** One whose writing failed discards what it has received, file by file, and closes its directory. */
  lemma DiscardedByARun(start: Store, token: string, uploads: seq<Upload>) returns (after: Machine)
    requires Inv(start) && Fresh(start, token) && Plain(token) && DistinctUploads(uploads)
    requires forall i | 0 <= i < |uploads| :: Plain(uploads[i].name)
    ensures Passes(Machine(start, map[]), after) && after.creators == map[]
    ensures after.st.db == start.db && after.st.disk == start.disk && after.st.operations == start.operations
  {
    assert forall u | u in uploads :: Plain(u.name);
    FreshOperation(start, token);
    hide Inv, Fresh, Passes, Received, SameOutside, Emptied, Within, SizesOf, HasReceived, DistinctUploads, Plain;
    var received := ReceivingRun(start, token, uploads);
    var failed := FailingStep(start, received, token, uploads);
    OnlySlotsOf(start.disk, failed.st.disk, token, uploads);
    after := DiscardingRun(start, failed, token, SizesOf(token, uploads).Keys);
    NothingLeft(start.disk, after.st.disk, Op(token));
  }

  lemma FreshOperation(st: Store, token: string)
    requires Inv(st) && Fresh(st, token)
    ensures Op(token) !in st.operations && Emptied(st.disk, Op(token))
  {
    FreshIsOwned(st, st, token);
  }

  lemma FailingStep(start: Store, received: Machine, token: string, uploads: seq<Upload>) returns (failed: Machine)
    requires Passes(Machine(start, map[]), received) && HasReceived(start, received, token, uploads)
    ensures Passes(Machine(start, map[]), failed) && failed.creators == map[token := Discarding]
    ensures failed.st.db == start.db && failed.st.operations == start.operations + {Op(token)}
    ensures Received(start.disk, failed.st.disk, token, uploads)
  {
    hide Passes, MachineInv, Received;
    PassesOn(Machine(start, map[]), received, Fail(token));
    failed := Step(received, Fail(token));
  }

  lemma OnlySlotsOf(before: map<Place, Content>, disk: map<Place, Content>, token: string, uploads: seq<Upload>)
    requires Received(before, disk, token, uploads) && Emptied(before, Op(token))
    ensures SameOutside(before, disk, Op(token)) && Within(disk, Op(token), SizesOf(token, uploads).Keys)
  {
    forall path | Slot(Op(token), path) in disk ensures path in SizesOf(token, uploads) {
      assert Slot(Op(token), path) !in before;
      var u :| u in uploads && Slot(Op(token), path) == UploadSlot(token, u);
      var i :| 0 <= i < |uploads| && uploads[i] == u;
      SizedPaths(token, uploads, path);
    }
  }

  lemma {:induction false} DiscardingRun(start: Store, m: Machine, token: string, left: set<Path>)
    returns (after: Machine)
    requires Passes(Machine(start, map[]), m) && m.creators == map[token := Discarding]
    requires SameOutside(start.disk, m.st.disk, Op(token)) && Within(m.st.disk, Op(token), left)
    ensures Passes(Machine(start, map[]), after) && after.creators == map[]
    ensures after.st.db == m.st.db && after.st.operations == m.st.operations - {Op(token)}
    ensures SameOutside(start.disk, after.st.disk, Op(token)) && Emptied(after.st.disk, Op(token))
    decreases |left|
  {
    if path :| path in left && Slot(Op(token), path) in m.st.disk {
      PassesOn(Machine(start, map[]), m, Discard(token, path));
      var next := Step(m, Discard(token, path));
      RemovingInside(start.disk, m.st.disk, Op(token), path, left - {path});
      assert left - {path} + {path} == left;
      after := DiscardingRun(start, next, token, left - {path});
    } else {
      PassesOn(Machine(start, map[]), m, Close(token));
      after := Step(m, Close(token));
      assert Emptied(m.st.disk, Op(token));
      assert forall place | place in m.st.disk && InOperation(place, Op(token)) :: place == Slot(Op(token), place.path);
    }
  }

  /** One without files: a transaction that leaves the file rows alone. */
  lemma CreatedWithoutFiles(start: Store, rows: Db, submission: nat, form: FormSnapshot, spam: bool, ids: seq<nat>)
    returns (m: Machine)
    requires Inv(start) && Stores(start.db, rows, submission, form, spam, ids, [])
    ensures Passes(Machine(start, map[]), m) && AfterCrash(m.st) == Adding(AfterCrash(start), rows, {})
    ensures m == Machine(start.(db := rows), map[])
  {
    var from := Machine(start, map[]);
    StoringKeepsLinks(start.db, rows, submission, form, spam, ids, []);
    NoRowsAdded(start.db.files, rows.files, ids, submission);
    PassesAtOnce(from);
    PassesOn(from, from, Elsewhere(rows));
    m := Step(from, Elsewhere(rows));
    ElsewhereKeeps(from, Elsewhere(rows));
    assert forall path :: Referenced(rows, path) <==> Referenced(start.db, path);
    assert Promised(m.st) == Promised(start);
  }

  /** What a crash would leave is what it leaves in some state that a run of the machine passes through. */
  ghost predicate MomentOfARun(start: Store, crash: Crash) {
    exists m: Machine :: Passes(Machine(start, map[]), m) && AfterCrash(m.st) == crash
  }

  /** Some run ends, with no create at work, in a store with these rows, files and operations. */
  ghost predicate EndOfARun(start: Store, end: Store) {
    exists m: Machine ::
      && Passes(Machine(start, map[]), m) && m.creators == map[]
      && m.st.db == end.db && m.st.disk == end.disk && m.st.operations == end.operations
  }

  lemma ArrivedIsUnique(before: map<Place, Content>, a: map<Place, Content>, b: map<Place, Content>, token: string,
                        uploads: seq<Upload>)
    requires Arrived(before, a, token, uploads) && Arrived(before, b, token, uploads)
    ensures a == b
  {
    forall place ensures place in a <==> place in b {
    }
    forall place | place in a ensures a[place] == b[place] {
    }
  }

  /**
   * A whole create is a run of the machine's steps: at every moment a crash leaves what it leaves in such a run, and
   * with working I/O it ends where such a run ends.
   */
  method CreateAlone(s: Server, form: FormSnapshot, spam: bool, payloadEmpty: bool, uploads: seq<Upload>, maximum: int)
    returns (r: Result<nat, CreateError>)
    requires s.Valid() && Inv(s.Now()) && DistinctDeliveries(form)
    requires forall i | 0 <= i < |uploads| :: Plain(uploads[i].name)
    modifies s`db, s`disk, s`operations, s`areas, s`log, s`locks
    ensures s.Valid() && old(s.log) <= s.log
    ensures forall k | old(|s.log|) <= k < |s.log| :: MomentOfARun(old(s.Now()), s.log[k])
    ensures MomentOfARun(old(s.Now()), AfterCrash(s.Now()))
    ensures s.reliable ==> EndOfARun(old(s.Now()), s.Now())
    ensures r.Err? ==> AfterCrash(s.Now()) == old(AfterCrash(s.Now()))
  {
    hide Inv, Stores, Passes, Fresh, Arrived, DistinctUploads, DistinctDeliveries, Announced;
    ghost var start := s.Now();
    ghost var token, ids, point;
    r, token, ids, point := CreateSubmission(s, form, spam, payloadEmpty, uploads, maximum);
    PassesAtOnce(Machine(start, map[]));
    assert MomentOfARun(start, AfterCrash(start)) && EndOfARun(start, start);
    if r.Ok? {
      CreatedByOneOf(start, s.Now(), spam, uploads, token, r.value, form, ids);
    }
  }

  lemma NothingArrived(before: map<Place, Content>, after: map<Place, Content>, token: string)
    requires Arrived(before, after, token, [])
    ensures after == before
  {
  }

  lemma CreatedByOneOf(start: Store, end: Store, spam: bool, uploads: seq<Upload>, token: string, submission: nat,
                       form: FormSnapshot, ids: seq<nat>)
    requires Inv(start) && forall i | 0 <= i < |uploads| :: Plain(uploads[i].name)
    requires !spam && uploads != [] ==> Fresh(start, token) && DistinctUploads(uploads)
    requires Stores(start.db, end.db, submission, form, spam, ids, RecordsOf(token, if spam then [] else uploads))
    ensures MomentOfARun(start, Adding(AfterCrash(start), end.db, Contents(token, if spam then [] else uploads)))
    ensures Arrived(start.disk, end.disk, token, if spam then [] else uploads) && end.operations == start.operations ==>
              EndOfARun(start, end)
  {
    var arrived := Arrived(start.disk, end.disk, token, if spam then [] else uploads);
    hide Passes, Inv, Stores, Fresh, DistinctUploads, Arrived;
    if spam || uploads == [] {
      assert Contents(token, []) == {} && RecordsOf(token, []) == [];
      var m := CreatedWithoutFiles(start, end.db, submission, form, spam, ids);
      if arrived {
        NothingArrived(start.disk, end.disk, token);
      }
    } else {
      var m, after := CreatedByARun(start, end.db, token, uploads, submission, form, ids);
      if arrived {
        ArrivedIsUnique(start.disk, after.st.disk, end.disk, token, uploads);
      }
    }
  }

  function Length(content: Content): nat {
    match content
    case Partial => 0
    case Complete(bytes) => |bytes|
  }

  /** The bytes of all these contents together. */
  ghost function TotalBytes(contents: set<(Path, Content)>): nat
    decreases |contents|
  {
    if contents == {} then 0
    else
      var x :| x in contents;
      Length(x.1) + TotalBytes(contents - {x})
  }

  lemma {:induction false} TotalBytesWithout(contents: set<(Path, Content)>, x: (Path, Content))
    requires x in contents
    ensures TotalBytes(contents) == Length(x.1) + TotalBytes(contents - {x})
    decreases |contents|
  {
    var y :| y in contents && TotalBytes(contents) == Length(y.1) + TotalBytes(contents - {y});
    if y != x {
      TotalBytesWithout(contents - {y}, x);
      TotalBytesWithout(contents - {x}, y);
      assert contents - {y} - {x} == contents - {x} - {y};
    }
  }

  /** What the store holds for some of the rows. */
  ghost function ContentsOf(st: Store, files: map<nat, FileRow>): set<(Path, Content)> {
    set x | x in Promised(st) && exists f :: f in files && files[f].path == x.0
  }

  /** A row's path has one content, as long as the row says. */
  lemma ContentOfRow(st: Store, f: nat) returns (x: (Path, Content))
    requires Inv(st) && f in st.db.files
    ensures x in Promised(st) && x.0 == st.db.files[f].path && Length(x.1) == st.db.files[f].size
    ensures forall y | y in Promised(st) && y.0 == x.0 :: y == x
  {
    assert Backed(st.disk, st.db.files[f]);
    var place := BackingPlace(st.disk, st.db.files[f]);
    assert Referenced(st.db, place.path);
    x := (place.path, st.disk[place]);
    forall y | y in Promised(st) && y.0 == x.0 ensures y == x {
      var other :| other in st.disk && Referenced(st.db, other.path) && y == (other.path, st.disk[other]);
      assert other == place;
    }
  }

  lemma {:induction false} BytesOfRows(st: Store, files: map<nat, FileRow>)
    requires Inv(st) && forall f | f in files :: f in st.db.files && st.db.files[f] == files[f]
    ensures StoredBytes(files) == TotalBytes(ContentsOf(st, files))
    decreases |files|
  {
    if files == map[] {
      assert ContentsOf(st, files) == {};
    } else {
      var f :| f in files;
      var x := ContentOfRow(st, f);
      BytesOfRows(st, files - {f});
      StoredBytesWithout(files, f);
      WithoutItsRow(st, files, f, x);
      TotalBytesWithout(ContentsOf(st, files), x);
    }
  }

  lemma WithoutItsRow(st: Store, files: map<nat, FileRow>, f: nat, x: (Path, Content))
    requires DistinctFiles(st.db.files) && forall g | g in files :: g in st.db.files && st.db.files[g] == files[g]
    requires f in files && x in Promised(st) && x.0 == files[f].path
    requires forall y | y in Promised(st) && y.0 == x.0 :: y == x
    ensures x in ContentsOf(st, files) && ContentsOf(st, files - {f}) == ContentsOf(st, files) - {x}
  {
    forall y | y in ContentsOf(st, files) && y != x ensures y in ContentsOf(st, files - {f}) {
      var g :| g in files && files[g].path == y.0;
      assert g != f && g in files - {f};
    }
    forall y | y in ContentsOf(st, files - {f}) ensures y != x {
      var g :| g in files - {f} && files[g].path == y.0;
      assert st.db.files[g].path == st.db.files[f].path ==> g == f;
    }
  }

  /** The sum of the sizes in the rows is the number of bytes in the files that the rows reference. */
  lemma StoredBytesAreTheContents(st: Store)
    requires Inv(st)
    ensures StoredBytes(st.db.files) == TotalBytes(Promised(st))
  {
    BytesOfRows(st, st.db.files);
    forall x | x in Promised(st) ensures x in ContentsOf(st, st.db.files) {
      assert Referenced(st.db, x.0);
    }
    assert ContentsOf(st, st.db.files) == Promised(st);
  }

  /** And that is so in every state of every run. */
  lemma StoredBytesOverRuns(states: seq<Machine>, actions: seq<Action>, i: nat)
    requires Run(states, actions) && MachineInv(states[0]) && i < |states|
    ensures StoredBytes(states[i].st.db.files) == TotalBytes(Promised(states[i].st))
  {
    EveryRunIsSafe(states, actions, i);
    StoredBytesAreTheContents(states[i].st);
  }

  /**
   * Creates that all check the same maximum keep the stored bytes within it, in any order of their commits; and the
   * stored bytes are always those of the files that the rows reference.
   */
  lemma {:induction false} QuotaHoldsOverRuns(states: seq<Machine>, actions: seq<Action>, maximum: int, i: nat)
    requires Run(states, actions) && MachineInv(states[0]) && i < |states| && maximum > 0
    requires forall j | 0 <= j < |actions| && actions[j].Commit? ::
               actions[j].records == [] || StoredBytes(states[j].st.db.files) + TotalSize(actions[j].records) <= maximum
    requires StoredBytes(states[0].st.db.files) <= maximum
    ensures StoredBytes(states[i].st.db.files) == TotalBytes(Promised(states[i].st)) <= maximum
  {
    hide MachineInv, Inv, Promised, TotalBytes, StoredBytes, TotalSize;
    EveryRunIsSafe(states, actions, i);
    assert Inv(states[i].st) by {
      InvOfMachine(states[i]);
    }
    StoredBytesAreTheContents(states[i].st);
    if i > 0 {
      QuotaHoldsOverRuns(states, actions, maximum, i - 1);
      EveryRunIsSafe(states, actions, i - 1);
      QuotaStep(states[i - 1], actions[i - 1], maximum);
    }
  }

  lemma InvOfMachine(m: Machine)
    requires MachineInv(m)
    ensures Inv(m.st)
  {
  }

  lemma QuotaStep(m: Machine, a: Action, maximum: int)
    requires MachineInv(m) && Enabled(m, a) && maximum > 0 && StoredBytes(m.st.db.files) <= maximum
    requires a.Commit? && a.records != [] ==> StoredBytes(m.st.db.files) + TotalSize(a.records) <= maximum
    ensures StoredBytes(Step(m, a).st.db.files) <= maximum
  {
    var after := Step(m, a).st.db;
    if a.Commit? {
      QuotaIsKept(m.st.db, after, a.submission, a.form, false, a.ids, a.records, maximum);
    } else if a.Delete? {
      DeleteKeeps(m, a.target, a.st);
      FewerRowsFewerBytes(after.files, m.st.db.files);
    } else if a.Recover? {
      RecoverKeeps(m, a.st);
    } else {
      assert after.files == m.st.db.files;
    }
  }
}
