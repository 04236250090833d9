/** Accepting a submission: files are received beside the store, rows are committed, then the files move in. */
module Submissions {
  import opened Wrappers
  import opened StoredPaths
  import opened Records
  import opened UploadStore
  import opened UploadServers
  import opened Dbtxn
  import opened UploadDeletions
  import opened Outbox

  /** An upload under the random name it is stored with. */
  datatype Upload = Upload(name: string, bytes: seq<bv8>)

  function UploadPath(token: string, upload: Upload): Path {
    [UPLOADS, token, upload.name]
  }

  function RecordsOf(token: string, uploads: seq<Upload>): seq<FileRow> {
    seq(|uploads|, i requires 0 <= i < |uploads| => FileRow(0, UploadPath(token, uploads[i]), |uploads[i].bytes|))
  }

  function UploadSlot(token: string, upload: Upload): Place {
    Slot(Operation(Staging, token), UploadPath(token, upload))
  }

  /** Files created under one token have names of their own. */
  ghost predicate DistinctUploads(uploads: seq<Upload>) {
    forall i, j | 0 <= i < j < |uploads| :: uploads[i].name != uploads[j].name
  }

  /** The received files lie complete in the operation's slots; everything else is as it was. */
  ghost predicate Received(before: map<Place, Content>, after: map<Place, Content>, token: string,
                           uploads: seq<Upload>) {
    && (forall place {:trigger place in before} | place in before :: place in after && after[place] == before[place])
    && (forall place {:trigger place in after} | place in after && place !in before ::
          exists u :: u in uploads && place == UploadSlot(token, u))
    && (forall u | u in uploads ::
          UploadSlot(token, u) !in before && UploadSlot(token, u) in after
              && after[UploadSlot(token, u)] == Complete(u.bytes))
    && DistinctUploads(uploads)
  }

  /** Nothing in the store carries the token but files of its own staging operation that no row references. */
  ghost predicate Owns(st: Store, token: string) {
    && (forall path {:trigger Referenced(st.db, path)} :: Under(path, token) ==> !Referenced(st.db, path))
    && (forall place {:trigger place in st.disk} | place in st.disk && Under(place.path, token) ::
          place == Slot(Operation(Staging, token), place.path))
  }

  /** Only the operation's own slots differ. */
  ghost predicate SameOutside(before: map<Place, Content>, after: map<Place, Content>, operation: Operation) {
    && (forall place {:trigger place in before} | place in before && !InOperation(place, operation) ::
        place in after && after[place] == before[place])
    && (forall place {:trigger place in after} | place in after && !InOperation(place, operation) :: place in before)
  }

  lemma FreshIsOwned(before: Store, after: Store, token: string)
    requires Inv(before) && Fresh(before, token)
    requires after.db == before.db && after.disk == before.disk
    ensures Owns(after, token) && Emptied(before.disk, Operation(Staging, token))
  {
    forall path | Under(path, token) ensures !Referenced(after.db, path) {
    }
    forall path ensures Slot(Operation(Staging, token), path) !in before.disk {
      if Slot(Operation(Staging, token), path) in before.disk {
        assert false;
      }
    }
  }

  lemma ReceivingOwned(before: Store, after: Store, token: string, path: Path, content: Content)
    requires Inv(before) && Owns(before, token) && Operation(Staging, token) in before.operations
    requires Stored(path) && Under(path, token)
    requires after == before.(disk := before.disk[Slot(Operation(Staging, token), path) := content])
    ensures Inv(after) && AfterCrash(after) == AfterCrash(before) && Owns(after, token)
    ensures !Referenced(before.db, path)
  {
    assert !Referenced(before.db, path);
    ReceivingKeepsMeaning(before, after, Operation(Staging, token), path, content);
  }

  /** Writes one upload into the staging operation. */
  method ReceiveOne(s: Server, token: string, upload: Upload) returns (ok: bool)
    requires s.Valid() && Inv(s.Now()) && Owns(s.Now(), token) && Operation(Staging, token) in s.operations
    requires Plain(token) && Plain(upload.name)
    modifies s`disk, s`log
    ensures s.Valid() && Inv(s.Now()) && Owns(s.Now(), token) && AfterCrash(s.Now()) == old(AfterCrash(s.Now()))
    ensures old(s.log) <= s.log && s.KeptSince(old(|s.log|), old(AfterCrash(s.Now())))
    ensures SameOutside(old(s.disk), s.disk, Operation(Staging, token))
    ensures var slot := UploadSlot(token, upload);
            && (ok ==> slot !in old(s.disk) && s.disk == old(s.disk)[slot := Complete(upload.bytes)])
            && (s.reliable && slot !in old(s.disk) ==> ok)
  {
    hide Inv, Owns;
    var path := UploadPath(token, upload);
    var slot := UploadSlot(token, upload);
    ghost var before := s.Now();
    ok := s.CreateFile(slot);
    if !ok {
      return;
    }
    ReceivingOwned(before, s.Now(), token, path, Partial);
    ghost var empty := s.Now();
    ok := s.WriteFile(slot, upload.bytes);
    if ok {
      ReceivingOwned(empty, s.Now(), token, path, Complete(upload.bytes));
    }
  }

  lemma ReceivedOneMore(before: map<Place, Content>, disk: map<Place, Content>, token: string, uploads: seq<Upload>,
                        upload: Upload)
    requires Received(before, disk, token, uploads)
    requires UploadSlot(token, upload) !in disk
    ensures Received(before, disk[UploadSlot(token, upload) := Complete(upload.bytes)], token, uploads + [upload])
  {
    var after := disk[UploadSlot(token, upload) := Complete(upload.bytes)];
    var more := uploads + [upload];
    forall place | place in after && place !in before ensures exists u :: u in more && place == UploadSlot(token, u) {
      if place == UploadSlot(token, upload) {
        assert upload in more;
      } else {
        var u :| u in uploads && place == UploadSlot(token, u);
        assert u in more;
      }
    }
  }

  /** os.Root.RemoveAll on an operation whose files no row references; it may stop half-way. */
  method RemoveTree(s: Server, token: string) returns (ok: bool)
    requires s.Valid() && Inv(s.Now()) && Owns(s.Now(), token)
    modifies s`disk, s`operations, s`log
    ensures s.Valid() && Inv(s.Now()) && AfterCrash(s.Now()) == old(AfterCrash(s.Now()))
    ensures old(s.log) <= s.log && s.KeptSince(old(|s.log|), old(AfterCrash(s.Now())))
    ensures SameOutside(old(s.disk), s.disk, Operation(Staging, token))
    ensures ok ==>
              && Emptied(s.disk, Operation(Staging, token))
              && s.operations == old(s.operations) - {Operation(Staging, token)}
    ensures s.reliable ==> ok
  {
    ok := RemoveFiles(s, token);
    if ok {
      ok := RemoveEmptied(s, Operation(Staging, token));
    }
  }

  /** Every file of the operation goes; it may stop half-way. */
  method RemoveFiles(s: Server, token: string) returns (ok: bool)
    requires s.Valid() && Inv(s.Now()) && Owns(s.Now(), token)
    modifies s`disk, s`log
    ensures s.Valid() && Inv(s.Now()) && AfterCrash(s.Now()) == old(AfterCrash(s.Now())) && Owns(s.Now(), token)
    ensures old(s.log) <= s.log && s.KeptSince(old(|s.log|), old(AfterCrash(s.Now())))
    ensures SameOutside(old(s.disk), s.disk, Operation(Staging, token))
    ensures ok ==> Emptied(s.disk, Operation(Staging, token))
    ensures s.reliable ==> ok
  {
    var op := Operation(Staging, token);
    var files := ListOperation(s.disk, op);
    forall path | path in files ensures Under(path, token) {
      assert Slot(op, path) in s.disk;
    }
    ok := RemoveAllOwned(s, token, files);
  }

  method RemoveAllOwned(s: Server, token: string, files: seq<Path>) returns (ok: bool)
    requires s.Valid() && Inv(s.Now()) && Owns(s.Now(), token)
    requires Covers(s.disk, Operation(Staging, token), files) && forall path | path in files :: Under(path, token)
    modifies s`disk, s`log
    ensures s.Valid() && Inv(s.Now()) && AfterCrash(s.Now()) == old(AfterCrash(s.Now())) && Owns(s.Now(), token)
    ensures old(s.log) <= s.log && s.KeptSince(old(|s.log|), old(AfterCrash(s.Now())))
    ensures SameOutside(old(s.disk), s.disk, Operation(Staging, token))
    ensures ok ==> Emptied(s.disk, Operation(Staging, token))
    ensures s.reliable ==> ok
  {
    var op := Operation(Staging, token);
    ok := true;
    AllPaths(files);
    for n := |files| downto 0
      invariant ok && s.Valid() && Inv(s.Now()) && AfterCrash(s.Now()) == old(AfterCrash(s.Now()))
                && Owns(s.Now(), token)
      invariant old(s.log) <= s.log && s.KeptSince(old(|s.log|), old(AfterCrash(s.Now())))
      invariant SameOutside(old(s.disk), s.disk, op) && Within(s.disk, op, PathSet(files, n))
    {
      OneMorePath(files, n);
      RemovingInside(old(s.disk), s.disk, op, files[n], PathSet(files, n));
      ok := RemoveOwned(s, token, files[n]);
      if !ok {
        return;
      }
    }
  }

  lemma RemovingInside(before: map<Place, Content>, disk: map<Place, Content>, operation: Operation, path: Path,
                       others: set<Path>)
    requires SameOutside(before, disk, operation) && Within(disk, operation, others + {path})
    ensures
      var after := disk - {Slot(operation, path)};
      SameOutside(before, after, operation) && Within(after, operation, others)
  {
  }

  method RemoveOwned(s: Server, token: string, path: Path) returns (ok: bool)
    requires s.Valid() && Inv(s.Now()) && Owns(s.Now(), token) && Under(path, token)
    modifies s`disk, s`log
    ensures s.Valid() && Inv(s.Now()) && AfterCrash(s.Now()) == old(AfterCrash(s.Now())) && Owns(s.Now(), token)
    ensures s.log == old(s.log) || s.log == old(s.log) + [AfterCrash(s.Now())]
    ensures s.disk == if ok then old(s.disk) - {Slot(Operation(Staging, token), path)} else old(s.disk)
    ensures s.reliable ==> ok
  {
    ghost var before := s.Now();
    ok := s.RemoveFile(Slot(Operation(Staging, token), path));
    assert !Referenced(s.db, path);
    if ok {
      DropKeepsMeaning(before, s.Now(), Slot(Operation(Staging, token), path));
    }
  }

  /** stageUnassignedFiles and saveFilesAt: all uploads are received under a fresh token, or none is kept. */
  method StageUnassignedFiles(s: Server, uploads: seq<Upload>) returns (err: Error, token: string)
    requires s.Valid() && Inv(s.Now()) && forall i | 0 <= i < |uploads| :: Plain(uploads[i].name)
    modifies s`disk, s`operations, s`areas, s`log
    ensures s.Valid() && Inv(s.Now()) && AfterCrash(s.Now()) == old(AfterCrash(s.Now()))
    ensures old(s.log) <= s.log && s.KeptSince(old(|s.log|), old(AfterCrash(s.Now())))
    ensures err == NoError || err == Failed
    ensures s.reliable && DistinctUploads(uploads) ==> err == NoError
    ensures err == NoError ==>
              && Fresh(old(s.Now()), token) && Received(old(s.disk), s.disk, token, uploads) && Owns(s.Now(), token)
              && Emptied(old(s.disk), Operation(Staging, token))
              && Operation(Staging, token) !in old(s.operations)
              && s.operations == old(s.operations) + {Operation(Staging, token)}
    ensures s.reliable && err != NoError ==> s.disk == old(s.disk) && s.operations == old(s.operations)
  {
    token := s.Token();
    var op := Operation(Staging, token);
    ghost var before := s.Now();
    var ok := s.MakeOperation(op);
    if !ok {
      return Failed, token;
    }
    DirectoryKeepsMeaning(before, s.Now());
    FreshIsOwned(before, s.Now(), token);
    ok := SaveFilesAt(s, token, uploads);
    if ok {
      return NoError, token;
    }
    var removed := RemoveTree(s, token);
    if removed {
      NothingLeft(before.disk, s.disk, op);
    }
    err := Failed;
  }

  lemma NothingLeft(before: map<Place, Content>, after: map<Place, Content>, operation: Operation)
    requires SameOutside(before, after, operation) && Emptied(before, operation) && Emptied(after, operation)
    ensures after == before
  {
    forall place ensures place in before <==> place in after {
      if place.Slot? && place.operation == operation {
        assert place == Slot(operation, place.path);
      }
    }
  }

  /** Under names of their own the files do not meet each other. */
  lemma NextIsFree(before: map<Place, Content>, disk: map<Place, Content>, token: string, uploads: seq<Upload>, n: nat)
    requires n < |uploads| && DistinctUploads(uploads) && Emptied(before, Operation(Staging, token))
    requires Received(before, disk, token, uploads[..n])
    ensures UploadSlot(token, uploads[n]) !in disk
  {
    var slot := UploadSlot(token, uploads[n]);
    assert Slot(Operation(Staging, token), slot.path) !in before;
  }

  /** The writing loop of saveFilesAt. */
  method ReceiveAll(s: Server, token: string, uploads: seq<Upload>) returns (complete: bool)
    requires s.Valid() && Inv(s.Now()) && forall i | 0 <= i < |uploads| :: Plain(uploads[i].name)
    requires Owns(s.Now(), token) && Operation(Staging, token) in s.operations && Plain(token)
    modifies s`disk, s`log
    ensures s.Valid() && Inv(s.Now()) && Owns(s.Now(), token) && AfterCrash(s.Now()) == old(AfterCrash(s.Now()))
    ensures old(s.log) <= s.log && s.KeptSince(old(|s.log|), old(AfterCrash(s.Now())))
    ensures SameOutside(old(s.disk), s.disk, Operation(Staging, token))
    ensures complete ==> Received(old(s.disk), s.disk, token, uploads)
    ensures s.reliable && DistinctUploads(uploads) && Emptied(old(s.disk), Operation(Staging, token)) ==> complete
  {
    hide Inv, Owns, Received, SameOutside, DistinctUploads, Emptied;
    StillOutside(s.disk, s.disk, s.disk, Operation(Staging, token));
    NothingReceived(s.disk, token);
    assert uploads[..0] == [];
    for n := 0 to |uploads|
      invariant s.Valid() && Inv(s.Now()) && Owns(s.Now(), token) && AfterCrash(s.Now()) == old(AfterCrash(s.Now()))
      invariant old(s.log) <= s.log && s.KeptSince(old(|s.log|), old(AfterCrash(s.Now())))
      invariant SameOutside(old(s.disk), s.disk, Operation(Staging, token))
      invariant Received(old(s.disk), s.disk, token, uploads[..n])
    {
      ghost var before := s.disk;
      if DistinctUploads(uploads) && Emptied(old(s.disk), Operation(Staging, token)) {
        NextIsFree(old(s.disk), s.disk, token, uploads, n);
      }
      complete := ReceiveOne(s, token, uploads[n]);
      StillOutside(old(s.disk), before, s.disk, Operation(Staging, token));
      if !complete {
        return;
      }
      ReceivedOneMore(old(s.disk), before, token, uploads[..n], uploads[n]);
      assert uploads[..n + 1] == uploads[..n] + [uploads[n]];
    }
    assert uploads[..|uploads|] == uploads;
    complete := true;
  }

  lemma StillOutside(a: map<Place, Content>, b: map<Place, Content>, c: map<Place, Content>, operation: Operation)
    ensures SameOutside(a, a, operation)
    ensures SameOutside(a, b, operation) && SameOutside(b, c, operation) ==> SameOutside(a, c, operation)
  {
  }

  lemma NothingReceived(disk: map<Place, Content>, token: string)
    ensures Received(disk, disk, token, [])
  {
  }

  /** saveFilesAt: all uploads are complete, or what was written is removed again as far as possible. */
  method SaveFilesAt(s: Server, token: string, uploads: seq<Upload>) returns (complete: bool)
    requires s.Valid() && Inv(s.Now()) && forall i | 0 <= i < |uploads| :: Plain(uploads[i].name)
    requires Owns(s.Now(), token) && Operation(Staging, token) in s.operations && Plain(token)
    modifies s`disk, s`log
    ensures s.Valid() && Inv(s.Now()) && Owns(s.Now(), token) && AfterCrash(s.Now()) == old(AfterCrash(s.Now()))
    ensures old(s.log) <= s.log && s.KeptSince(old(|s.log|), old(AfterCrash(s.Now())))
    ensures SameOutside(old(s.disk), s.disk, Operation(Staging, token))
    ensures complete ==> Received(old(s.disk), s.disk, token, uploads)
    ensures s.reliable && DistinctUploads(uploads) && Emptied(old(s.disk), Operation(Staging, token)) ==> complete
    ensures s.reliable && !complete ==> Emptied(s.disk, Operation(Staging, token))
  {
    hide Inv, Owns, Received, SameOutside, Emptied, DistinctUploads;
    complete := ReceiveAll(s, token, uploads);
    if !complete {
      ghost var before := s.disk;
      var removed := RemoveFiles(s, token);
      StillOutside(old(s.disk), before, s.disk, Operation(Staging, token));
    }
  }

  /** Keys the records were given by an earlier run of the transaction body; a rollback does not take them back. */
  datatype Keys = Keys(submission: Option<nat>, files: seq<nat>)

  ghost predicate Usable(keys: Keys, count: nat) {
    keys.files == [] ||
    (|keys.files| == count && forall i, j | 0 <= i < j < count :: keys.files[i] != keys.files[j])
  }

  /** Inserts the file rows of one submission; a key kept from an earlier run may meanwhile be taken. */
  method InsertRecords(files: map<nat, FileRow>, submission: nat, records: seq<FileRow>, kept: seq<nat>)
    returns (ok: bool, after: map<nat, FileRow>, ids: seq<nat>)
    requires kept == [] || (|kept| == |records| && forall i, j | 0 <= i < j < |kept| :: kept[i] != kept[j])
    ensures ok ==> RowsAdded(files, after, ids, submission, records)
    ensures kept == [] ==> ok
    ensures !ok <==> kept != [] && exists i :: 0 <= i < |records| && kept[i] in files
  {
    after, ids := files, [];
    for n := 0 to |records|
      invariant RowsAdded(files, after, ids, submission, records[..n])
      invariant kept != [] ==> ids == kept[..n]
    {
      var id;
      if kept == [] {
        id := NewId(after.Keys);
      } else {
        id := kept[n];
        if id in files {
          return false, after, ids;
        }
      }
      assert records[..n + 1] == records[..n] + [records[n]];
      after, ids := after[id := records[n].(submission := submission)], ids + [id];
    }
    assert records[..|records|] == records;
    ok := true;
  }

  /** No row has the keys yet. */
  ghost predicate Untaken(keys: Keys, tx: Db) {
    && (keys.submission.Some? ==> keys.submission.value !in tx.submissions)
    && forall f | f in keys.files :: f !in tx.files
  }

  /** The insert of the file rows, if there are any. */
  method StoreFiles(s: Server, tx: Db, submission: nat, records: seq<FileRow>, kept: seq<nat>)
    returns (err: Error, files: map<nat, FileRow>, ids: seq<nat>)
    requires kept == [] || (|kept| == |records| && forall i, j | 0 <= i < j < |kept| :: kept[i] != kept[j])
    modifies s`locks
    ensures s.locks == old(s.locks) + if err == Contention then 1 else 0
    ensures err == NoError || err == Contention || err == Failed
    ensures err == NoError ==> RowsAdded(tx.files, files, ids, submission, records)
    ensures s.reliable && err == Failed ==> exists f :: f in kept && f in tx.files
  {
    files, ids, err := tx.files, [], NoError;
    if records == [] {
      return;
    }
    err := s.Statement();
    if err != NoError {
      return;
    }
    var ok;
    ok, files, ids := InsertRecords(tx.files, submission, records, kept);
    if !ok {
      err := Failed;
    }
  }

  /** The transaction body: form, quota, submission, files, events, in this order. */
  method StoreRows(s: Server, tx: Db, form: FormSnapshot, spam: bool, records: seq<FileRow>, maximum: int, keys: Keys)
    returns (err: Error, tx': Db, keys': Keys, ghost ids: seq<nat>)
    requires DistinctDeliveries(form) && Linked(tx) && Usable(keys, |records|) && (spam ==> records == [])
    modifies s`locks
    ensures s.locks == old(s.locks) + if err == Contention then 1 else 0
    ensures err == NoError || err == Contention || err == QuotaExceeded || err == Failed
    ensures Usable(keys', |records|) && (Untaken(keys, tx) ==> Untaken(keys', tx))
    ensures err == NoError ==>
              && keys'.submission.Some?
              && Stores(tx, tx', keys'.submission.value, form, spam, ids, records)
    ensures err == NoError && maximum > 0 && records != [] ==> StoredBytes(tx'.files) <= maximum
    ensures err == QuotaExceeded ==>
              maximum > 0 && records != [] && StoredBytes(tx.files) + TotalSize(records) > maximum
    ensures s.reliable && err == Failed ==> form.id !in tx.forms || !Untaken(keys, tx)
  {
    hide OneEventEach, Announced, DistinctDeliveries, TotalSize, Stores, RowsAdded, Linked;
    tx', keys', ids := tx, keys, [];
    err := s.Statement();
    if err != NoError {
      return;
    }
    if form.id !in tx.forms {
      err := Failed;
      return;
    }
    var withinQuota := CheckUploadQuota(tx.files, records, maximum);
    if !withinQuota {
      err := QuotaExceeded;
      return;
    }
    err := s.Statement();
    if err != NoError {
      return;
    }
    if keys.submission.Some? && keys.submission.value in tx.submissions {
      err := Failed;
      return;
    }
    var submission;
    if keys.submission.Some? {
      submission := keys.submission.value;
    } else {
      submission := NewId(tx.submissions.Keys);
    }
    tx' := tx'.(submissions := tx'.submissions[submission := Submission(form.id, spam)]);
    keys' := keys'.(submission := Some(submission));
    if spam {
      SpamIsStored(tx, tx', submission, form);
      return;
    }
    var fileIds;
    err, tx', fileIds := StoreFilesAndEvents(s, tx, form, submission, records, keys.files);
    keys', ids := keys'.(files := fileIds), fileIds;
  }

  /** What belongs to the submission, once its row is in; a failed insert of files leaves their keys as they were. */
  method StoreFilesAndEvents(s: Server, tx: Db, form: FormSnapshot, submission: nat, records: seq<FileRow>,
                             kept: seq<nat>)
    returns (err: Error, tx': Db, ids: seq<nat>)
    requires DistinctDeliveries(form) && Linked(tx) && form.id in tx.forms && submission !in tx.submissions
    requires Usable(Keys(None, kept), |records|)
    modifies s`locks
    ensures s.locks == old(s.locks) + if err == Contention then 1 else 0
    ensures err == NoError || err == Contention || err == Failed
    ensures Usable(Keys(None, ids), |records|) && (ids == kept || forall f | f in ids :: f !in tx.files)
    ensures err == NoError ==>
              && Stores(tx, tx', submission, form, false, ids, records)
              && StoredBytes(tx'.files) == StoredBytes(tx.files) + TotalSize(records)
    ensures s.reliable && err == Failed ==> exists f :: f in kept && f in tx.files
  {
    hide OneEventEach, Announced, DistinctDeliveries, TotalSize, Stores, RowsAdded, Linked;
    NothingOfItYet(tx, submission);
    tx' := tx.(submissions := tx.submissions[submission := Submission(form.id, false)]);
    var files;
    err, files, ids := StoreFiles(s, tx, submission, records, kept);
    if err != NoError {
      ids := kept;
      return;
    }
    AddedKeys(tx.files, files, ids, submission, records);
    AddedBytes(tx.files, files, ids, submission, records);
    err := s.Statement();
    if err != NoError {
      return;
    }
    var events := CreateDeliveryEvents(tx.events, form, submission);
    tx' := tx'.(files := files, events := events);
    AllIsStored(tx, tx', submission, form, ids, records);
  }

  lemma AddedKeys(before: map<nat, FileRow>, after: map<nat, FileRow>, ids: seq<nat>, submission: nat,
                  records: seq<FileRow>)
    requires RowsAdded(before, after, ids, submission, records)
    ensures |ids| == |records| && (forall i, j | 0 <= i < j < |ids| :: ids[i] != ids[j])
    ensures forall f | f in ids :: f !in before
  {
  }

  lemma SpamIsStored(tx: Db, tx': Db, submission: nat, form: FormSnapshot)
    requires form.id in tx.forms && submission !in tx.submissions
    requires tx' == tx.(submissions := tx.submissions[submission := Submission(form.id, true)])
    ensures Stores(tx, tx', submission, form, true, [], [])
  {
  }

  lemma AllIsStored(tx: Db, tx': Db, submission: nat, form: FormSnapshot, ids: seq<nat>, records: seq<FileRow>)
    requires form.id in tx.forms && submission !in tx.submissions
    requires tx' == tx.(submissions := tx.submissions[submission := Submission(form.id, false)],
                        files := tx'.files, events := tx'.events)
    requires RowsAdded(tx.files, tx'.files, ids, submission, records) && OneEventEach(tx'.events, submission, form)
    requires forall e | e in tx.events :: e in tx'.events && tx'.events[e] == tx.events[e]
    requires forall e | e in tx'.events && e !in tx.events :: tx'.events[e].submission == submission
    ensures Stores(tx, tx', submission, form, false, ids, records)
  {
    hide RowsAdded, OneEventEach;
  }

  lemma NothingOfItYet(tx: Db, submission: nat)
    requires Linked(tx) && submission !in tx.submissions
    ensures forall e | e in tx.events :: tx.events[e].submission != submission
    ensures RowsAdded(tx.files, tx.files, [], submission, [])
  {
  }

  ghost function Contents(token: string, uploads: seq<Upload>): set<(Path, Content)> {
    set u | u in uploads :: (UploadPath(token, u), Complete(u.bytes))
  }

  /** The uploads are received and still nobody else's. */
  ghost predicate Ready(st: Store, token: string, uploads: seq<Upload>) {
    uploads != [] ==>
      && Plain(token) && Owns(st, token) && (forall u | u in uploads :: Plain(u.name)) && DistinctUploads(uploads)
      && (forall u | u in uploads ::
          UploadSlot(token, u) in st.disk && st.disk[UploadSlot(token, u)] == Complete(u.bytes))
  }

  /** Committing rows for received files adds their contents to what the store promises. */
  lemma CommittingCreate(st: Store, after: Store, token: string, uploads: seq<Upload>, submission: nat,
                         form: FormSnapshot, spam: bool, ids: seq<nat>)
    requires Inv(st) && after == st.(db := after.db) && Ready(st, token, uploads) && (spam ==> uploads == [])
    requires Stores(st.db, after.db, submission, form, spam, ids, RecordsOf(token, uploads))
    ensures Inv(after) && AfterCrash(after) == Adding(AfterCrash(st), after.db, Contents(token, uploads))
  {
    var records := RecordsOf(token, uploads);
    StoringKeepsLinks(st.db, after.db, submission, form, spam, ids, records);
    NewRowsAreRecords(st.db, after.db, submission, form, spam, ids, token, uploads);
    forall f | f in after.db.files ensures Backed(after.disk, after.db.files[f]) {
      if f in st.db.files {
        assert Backed(st.disk, st.db.files[f]);
      } else {
        var u :| u in uploads && after.db.files[f] == FileRow(submission, UploadPath(token, u), |u.bytes|);
        assert UploadSlot(token, u) in after.disk;
      }
    }
    MoreReferences(st.db, after.db, submission, form, spam, ids, token, uploads);
    forall path | Home(path) in after.disk ensures Referenced(after.db, path) {
      assert Referenced(st.db, path);
    }
    assert RowsStored(after.db) by {
      forall f | f in after.db.files ensures Stored(after.db.files[f].path) {
        assert f in st.db.files ==> Stored(st.db.files[f].path);
      }
    }
    UploadsStayDistinct(st, after, token, uploads, submission, form, spam, ids);
    PromisedGrow(st, after, token, uploads);
  }

  lemma UploadsStayDistinct(st: Store, after: Store, token: string, uploads: seq<Upload>, submission: nat,
                            form: FormSnapshot,
                            spam: bool, ids: seq<nat>)
    requires Inv(st) && Ready(st, token, uploads) && (spam ==> uploads == [])
    requires Stores(st.db, after.db, submission, form, spam, ids, RecordsOf(token, uploads))
    ensures DistinctFiles(after.db.files)
  {
    var records := RecordsOf(token, uploads);
    forall i, f | 0 <= i < |records| && f in st.db.files ensures st.db.files[f].path != records[i].path {
      assert Under(records[i].path, token);
      assert !Referenced(st.db, records[i].path);
    }
    AddedFilesAreDistinct(st.db.files, after.db.files, ids, submission, records);
  }

  lemma NewRowsAreRecords(before: Db, after: Db, submission: nat, form: FormSnapshot, spam: bool, ids: seq<nat>,
                          token: string, uploads: seq<Upload>)
    requires Stores(before, after, submission, form, spam, ids, RecordsOf(token, uploads)) && (spam ==> uploads == [])
    ensures forall f | f in after.files && f !in before.files ::
              exists u :: u in uploads && after.files[f] == FileRow(submission, UploadPath(token, u), |u.bytes|)
    ensures forall u | u in uploads :: exists f ::
              f in after.files && after.files[f] == FileRow(submission, UploadPath(token, u), |u.bytes|)
  {
    forall f | f in after.files && f !in before.files
      ensures exists u :: u in uploads && after.files[f] == FileRow(submission, UploadPath(token, u), |u.bytes|)
    {
      var i :| 0 <= i < |ids| && ids[i] == f;
      assert uploads[i] in uploads;
    }
    forall u | u in uploads
      ensures exists f :: f in after.files && after.files[f] == FileRow(submission, UploadPath(token, u), |u.bytes|)
    {
      var i :| 0 <= i < |uploads| && uploads[i] == u;
      assert ids[i] in after.files;
    }
  }

  lemma MoreReferences(before: Db, after: Db, submission: nat, form: FormSnapshot, spam: bool, ids: seq<nat>,
                       token: string, uploads: seq<Upload>)
    requires Stores(before, after, submission, form, spam, ids, RecordsOf(token, uploads)) && (spam ==> uploads == [])
    ensures forall path {:trigger Referenced(before, path)} {:trigger Referenced(after, path)} ::
              Referenced(after, path) <==> Referenced(before, path) || exists u ::
                  u in uploads && UploadPath(token, u) == path
  {
    NewRowsAreRecords(before, after, submission, form, spam, ids, token, uploads);
    forall path ensures Referenced(after, path) <==> Referenced(before, path) || exists u ::
        u in uploads && UploadPath(token, u) == path {
      if Referenced(after, path) {
        var f :| f in after.files && after.files[f].path == path;
        if f in before.files {
          assert before.files[f].path == path;
        }
      }
      if Referenced(before, path) {
        var f :| f in before.files && before.files[f].path == path;
        assert after.files[f].path == path;
      }
    }
  }

  lemma PromisedGrow(st: Store, after: Store, token: string, uploads: seq<Upload>)
    requires Unique(st.disk) && after == st.(db := after.db) && Ready(st, token, uploads)
    requires forall path {:trigger Referenced(st.db, path)} {:trigger Referenced(after.db, path)} ::
               Referenced(after.db, path) <==> Referenced(st.db, path) || exists u ::
                   u in uploads && UploadPath(token, u) == path
    ensures Promised(after) == Promised(st) + Contents(token, uploads)
  {
    forall x | x in Promised(after) ensures x in Promised(st) + Contents(token, uploads) {
      var place :| place in st.disk && Referenced(after.db, place.path) && x == (place.path, st.disk[place]);
      if !Referenced(st.db, place.path) {
        var u :| u in uploads && UploadPath(token, u) == place.path;
        assert place == UploadSlot(token, u);
      }
    }
    forall x | x in Contents(token, uploads) ensures x in Promised(after) {
      var u :| u in uploads && x == (UploadPath(token, u), Complete(u.bytes));
      assert UploadSlot(token, u) in after.disk && Referenced(after.db, UploadPath(token, u));
    }
    forall x | x in Promised(st) ensures x in Promised(after) {
      var place :| place in st.disk && Referenced(st.db, place.path) && x == (place.path, st.disk[place]);
      assert Referenced(after.db, place.path);
    }
  }

  /** The uploads lie at their storage paths; everything else is as it was. */
  ghost predicate Arrived(before: map<Place, Content>, after: map<Place, Content>, token: string,
                          uploads: seq<Upload>) {
    && (forall place {:trigger place in before} | place in before :: place in after && after[place] == before[place])
    && (forall place {:trigger place in after} | place in after && place !in before ::
          exists u :: u in uploads && place == Home(UploadPath(token, u)))
    && (forall u | u in uploads ::
          Home(UploadPath(token, u)) in after && after[Home(UploadPath(token, u))] == Complete(u.bytes))
  }

  lemma FinishingReceived(before: map<Place, Content>, mid: map<Place, Content>, after: map<Place, Content>, rows: Db,
                          token: string, uploads: seq<Upload>)
    requires Received(before, mid, token, uploads) && Emptied(before, Operation(Staging, token)) && Unique(mid)
    requires Finished(mid, after, rows, Operation(Staging, token))
    ensures (forall u | u in uploads :: Referenced(rows, UploadPath(token, u))) ==>
              Arrived(before, after, token, uploads)
    ensures (forall u | u in uploads :: !Referenced(rows, UploadPath(token, u))) ==> after == before
  {
    var op := Operation(Staging, token);
    forall place | place in before ensures place in after && after[place] == before[place] {
      assert InOperation(place, op) ==> Slot(op, place.path) in before;
    }
    forall place | place in mid && place !in before ensures InOperation(place, op) {
    }
    forall place | place in after && place !in before
      ensures exists u :: u in uploads && place == Home(UploadPath(token, u)) && Referenced(rows, place.path)
    {
      assert InOperation(place, op) ==> place == Slot(op, place.path);
      assert PutBack(mid, after, rows, op, place);
      var u :| u in uploads && Slot(op, place.path) == UploadSlot(token, u);
      assert place == Home(UploadPath(token, u));
    }
    forall u | u in uploads && Referenced(rows, UploadPath(token, u))
      ensures Home(UploadPath(token, u)) in after && after[Home(UploadPath(token, u))] == Complete(u.bytes)
    {
      assert UploadSlot(token, u) in mid;
      assert Home(UploadPath(token, u)) !in mid;
      assert PutBack(mid, after, rows, op, Home(UploadPath(token, u)));
    }
    if forall u | u in uploads :: !Referenced(rows, UploadPath(token, u)) {
      assert after.Keys == before.Keys;
    }
  }

  datatype CreateError = EmptySubmission | QuotaReached | NotSaved

  /** dbtxn.WithRetry around the transaction body: another run only after a lock, and at most ten. */
  method StoreWithRetry(s: Server, form: FormSnapshot, spam: bool, token: string, uploads: seq<Upload>, maximum: int)
    returns (err: Error, submission: nat, ghost ids: seq<nat>)
    requires s.Valid() && Inv(s.Now()) && DistinctDeliveries(form) && (spam ==> uploads == [])
               && Ready(s.Now(), token, uploads)
    modifies s`db, s`log, s`locks
    ensures s.Valid() && Inv(s.Now())
    ensures err == NoError || err == Contention || err == QuotaExceeded || err == Failed
    ensures err == NoError ==>
              && Stores(old(s.db), s.db, submission, form, spam, ids, RecordsOf(token, uploads))
              && AfterCrash(s.Now()) == Adding(old(AfterCrash(s.Now())), s.db, Contents(token, uploads))
              && s.log == old(s.log) + [AfterCrash(s.Now())]
    ensures err == NoError && maximum > 0 && uploads != [] ==> StoredBytes(s.db.files) <= maximum
    ensures err != NoError ==> s.Now() == old(s.Now()) && s.log == old(s.log)
    ensures err == QuotaExceeded ==>
              maximum > 0 && uploads != [] && StoredBytes(s.db.files) + TotalSize(RecordsOf(token, uploads)) > maximum
    ensures old(s.locks) <= s.locks <= old(s.locks) + 10
    ensures err == Contention <==> s.locks == old(s.locks) + 10
    ensures s.reliable && err == Failed ==> form.id !in s.db.forms
  {
    hide Stores, StoredBytes, TotalSize, Inv, Ready, DistinctDeliveries, Contents, AfterCrash;
    var records := RecordsOf(token, uploads);
    var keys := Keys(None, []);
    ghost var before := s.Now();
    submission, ids, err := 0, [], Contention;
    for attempt := 1 to MAX_ATTEMPTS + 1
      invariant s.Now() == before && s.log == old(s.log) && s.Valid() && err == Contention
      invariant Usable(keys, |records|) && Untaken(keys, s.db) && s.locks == old(s.locks) + attempt - 1
    {
      var tx;
      assert Linked(s.db) by {
        InvLinks(before);
      }
      err, tx, keys, ids := StoreRows(s, s.db, form, spam, records, maximum, keys);
      if err == NoError {
        err := s.Commit(tx);
        if err == NoError {
          submission := keys.submission.value;
          CommittingCreate(before, s.Now(), token, uploads, submission, form, spam, ids);
        }
      }
      if err != Contention {
        return;
      }
      if attempt < MAX_ATTEMPTS {
        var waited := s.Works();
        if !waited {
          err := Failed;
          return;
        }
      }
    }
  }

  lemma InvLinks(st: Store)
    requires Inv(st)
    ensures Linked(st.db)
  {
  }

  /** Received files, rows in a retried transaction, then the files move in or go. */
  method StoreWithFiles(s: Server, form: FormSnapshot, uploads: seq<Upload>, maximum: int)
    returns (err: Error, submission: nat, ghost token: string, ghost ids: seq<nat>, ghost point: nat)
    requires s.Valid() && Inv(s.Now()) && DistinctDeliveries(form)
    requires forall i | 0 <= i < |uploads| :: Plain(uploads[i].name)
    modifies s`db, s`disk, s`operations, s`areas, s`log, s`locks
    ensures s.Valid() && Inv(s.Now()) && old(s.log) <= s.log && old(|s.log|) <= point <= |s.log|
    ensures forall k | old(|s.log|) <= k < point :: s.log[k] == old(AfterCrash(s.Now()))
    ensures forall k | point <= k < |s.log| ::
              s.log[k] == Adding(old(AfterCrash(s.Now())), s.db, Contents(token, uploads))
    ensures err == NoError <==> point < |s.log|
    ensures err == NoError ==> Stores(old(s.db), s.db, submission, form, false, ids, RecordsOf(token, uploads))
    ensures err == NoError ==> Fresh(old(s.Now()), token) && DistinctUploads(uploads)
    ensures err == NoError && maximum > 0 && uploads != [] ==> StoredBytes(s.db.files) <= maximum
    ensures err != NoError ==> s.db == old(s.db)
    ensures err == NoError || err == Contention || err == QuotaExceeded || err == Failed
    ensures old(s.locks) <= s.locks <= old(s.locks) + 10
    ensures err == Contention <==> s.locks == old(s.locks) + 10
    ensures s.reliable && DistinctUploads(uploads) && err == Failed ==> form.id !in s.db.forms
    ensures err == QuotaExceeded ==>
              maximum > 0 && StoredBytes(s.db.files) + TotalSize(RecordsOf(token, uploads)) > maximum
    ensures s.reliable ==>
              && s.operations == old(s.operations)
              && if err == NoError then Arrived(old(s.disk), s.disk, token, uploads) else s.disk == old(s.disk)
  {
    hide Inv, Stores, Arrived, Owns, DistinctDeliveries;
    var chosen;
    err, chosen := StageUnassignedFiles(s, uploads);
    token, point, submission, ids := chosen, |s.log|, 0, [];
    if err != NoError {
      return;
    }
    ghost var mid := s.Now();
    err, submission, ids := StoreWithRetry(s, form, false, chosen, uploads, maximum);
    if err == NoError {
      StoredAreReferenced(mid.db, s.db, submission, form, false, ids, chosen, uploads);
    } else {
      UnstoredAreUnreferenced(mid, chosen, uploads);
    }
    FinishUploads(s, chosen, uploads, old(s.disk), err == NoError);
    if err != NoError {
      point := |s.log|;
    }
  }

  /** staged.finish after a create: by now the rows either name all the received files or none of them. */
  method FinishUploads(s: Server, token: string, uploads: seq<Upload>, ghost before: map<Place, Content>,
                       ghost stored: bool)
    requires s.Valid() && Inv(s.Now()) && Received(before, s.disk, token, uploads)
               && Emptied(before, Operation(Staging, token))
    requires stored ==> forall u | u in uploads :: Referenced(s.db, UploadPath(token, u))
    requires !stored ==> forall u | u in uploads :: !Referenced(s.db, UploadPath(token, u))
    modifies s`disk, s`operations, s`log, s`locks
    ensures s.locks == old(s.locks)
    ensures s.Valid() && Inv(s.Now()) && AfterCrash(s.Now()) == old(AfterCrash(s.Now()))
    ensures old(s.log) <= s.log && s.KeptSince(old(|s.log|), old(AfterCrash(s.Now())))
    ensures s.reliable ==>
              && s.operations == old(s.operations) - {Operation(Staging, token)}
              && if stored then Arrived(before, s.disk, token, uploads) else s.disk == before
  {
    var files := seq(|uploads|, i requires 0 <= i < |uploads| => UploadPath(token, uploads[i]));
    ReceivedAreCovered(before, s.disk, token, uploads, files);
    ghost var mid := s.Now();
    var cleanupErr := Finish(s, Quarantine(Some(Operation(Staging, token)), files), s.db, false);
    if cleanupErr == NoError {
      FinishingReceived(before, mid.disk, s.disk, s.db, token, uploads);
    }
  }

  lemma UnstoredAreUnreferenced(st: Store, token: string, uploads: seq<Upload>)
    requires Owns(st, token)
    ensures forall u | u in uploads :: !Referenced(st.db, UploadPath(token, u))
  {
  }

  /**
   * Stores a submission. Up to `point` a crash leaves nothing of it; from there on it leaves all of it, rows, events
   * and contents. A create that reports an error has left no row.
   */
  method CreateSubmission(s: Server, form: FormSnapshot, spam: bool, payloadEmpty: bool, uploads: seq<Upload>,
                          maximum: int)
    returns (r: Result<nat, CreateError>, ghost token: string, ghost ids: seq<nat>, ghost point: nat)
    requires s.Valid() && Inv(s.Now()) && DistinctDeliveries(form)
    requires forall i | 0 <= i < |uploads| :: Plain(uploads[i].name)
    modifies s`db, s`disk, s`operations, s`areas, s`log, s`locks
    ensures s.Valid() && Inv(s.Now()) && old(s.log) <= s.log && old(|s.log|) <= point <= |s.log|
    ensures forall k | old(|s.log|) <= k < point :: s.log[k] == old(AfterCrash(s.Now()))
    ensures forall k | point <= k < |s.log| ::
              s.log[k] == Adding(old(AfterCrash(s.Now())), s.db, Contents(token, if spam then [] else uploads))
    ensures r.Ok? <==> point < |s.log|
    ensures r.Ok? ==> Stores(old(s.db), s.db, r.value, form, spam, ids, RecordsOf(token, if spam then [] else uploads))
    ensures r.Ok? && !spam && uploads != [] ==> Fresh(old(s.Now()), token) && DistinctUploads(uploads)
    ensures r.Ok? && maximum > 0 && !spam && uploads != [] ==> StoredBytes(s.db.files) <= maximum
    ensures r.Err? ==> s.db == old(s.db)
    ensures old(s.locks) <= s.locks <= old(s.locks) + 10
    ensures s.reliable && DistinctUploads(uploads) && r == Err(NotSaved) ==>
              form.id !in s.db.forms || s.locks == old(s.locks) + 10
    ensures r.Ok? && spam ==> forall e | e in s.db.events :: s.db.events[e].submission != r.value
    ensures r.Ok? && !spam ==> Announced(s.db.events, r.value, form)
    ensures r == Err(EmptySubmission) <==> !spam && payloadEmpty && uploads == []
    ensures r == Err(QuotaReached) ==>
              maximum > 0 && !spam && StoredBytes(s.db.files) + TotalSize(RecordsOf(token, uploads)) > maximum
    ensures s.reliable ==>
              && s.operations == old(s.operations)
              && if r.Ok? then Arrived(old(s.disk), s.disk, token, if spam then [] else uploads)
                  else s.disk == old(s.disk)
  {
    hide Inv, Stores, Announced, Fresh, DistinctUploads, DistinctDeliveries, Linked;
    ghost var before := s.Now();
    InvLinks(before);
    token, ids, point := "", [], |s.log|;
    if !spam && payloadEmpty && uploads == [] {
      return Err(EmptySubmission), token, ids, point;
    }
    var err, submission;
    if !spam && uploads != [] {
      err, submission, token, ids, point := StoreWithFiles(s, form, uploads, maximum);
    } else {
      err, submission, ids := StoreWithRetry(s, form, spam, "", [], maximum);
    }
    if err == NoError {
      StoredAnnounce(before.db, s.db, submission, form, spam, ids, RecordsOf(token, if spam then [] else uploads));
    }
    r := if err == NoError then Ok(submission) else if err == QuotaExceeded then Err(QuotaReached) else Err(NotSaved);
  }

  lemma StoredAnnounce(before: Db, after: Db, submission: nat, form: FormSnapshot, spam: bool, ids: seq<nat>,
                       records: seq<FileRow>)
    requires Linked(before) && DistinctDeliveries(form)
    requires Stores(before, after, submission, form, spam, ids, records)
    ensures if spam then forall e | e in after.events :: after.events[e].submission != submission
            else Announced(after.events, submission, form)
  {
    if !spam {
      EventsAnnounce(after.events, submission, form);
    }
  }

  lemma ReceivedAreCovered(before: map<Place, Content>, disk: map<Place, Content>, token: string,
                           uploads: seq<Upload>, files: seq<Path>)
    requires Received(before, disk, token, uploads) && Emptied(before, Operation(Staging, token))
    requires |files| == |uploads| && forall i | 0 <= i < |files| :: files[i] == UploadPath(token, uploads[i])
    ensures Covers(disk, Operation(Staging, token), files)
  {
    forall path | Slot(Operation(Staging, token), path) in disk ensures path in files {
      var u :| u in uploads && Slot(Operation(Staging, token), path) == UploadSlot(token, u);
      var i :| 0 <= i < |uploads| && uploads[i] == u;
      assert files[i] == path;
    }
  }

  lemma StoredAreReferenced(before: Db, after: Db, submission: nat, form: FormSnapshot, spam: bool, ids: seq<nat>,
                            token: string, uploads: seq<Upload>)
    requires Stores(before, after, submission, form, spam, ids, RecordsOf(token, uploads)) && (spam ==> uploads == [])
    ensures forall u | u in uploads :: Referenced(after, UploadPath(token, u))
  {
    NewRowsAreRecords(before, after, submission, form, spam, ids, token, uploads);
    forall u | u in uploads ensures Referenced(after, UploadPath(token, u)) {
      var f :| f in after.files && after.files[f] == FileRow(submission, UploadPath(token, u), |u.bytes|);
      assert after.files[f].path == UploadPath(token, u);
    }
  }
}
