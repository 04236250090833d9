/** The committed tables that uploads, submissions and their delivery events live in. */
module Records {
  import opened StoredPaths

  datatype Submission = Submission(form: nat, spam: bool)

  datatype FileRow = FileRow(submission: nat, path: Path, size: nat)

  datatype Channel = Webhook | Email(delivery: nat)

  datatype EventRow = EventRow(submission: nat, channel: Channel)

  datatype Db = Db(
    forms: set<nat>,
    submissions: map<nat, Submission>,
    files: map<nat, FileRow>,
    events: map<nat, EventRow>,
    // Delivery settings, each with the form it belongs to.
    emailDeliveries: map<nat, nat>,
    webhookDeliveries: map<nat, nat>)

  /** What one delete call names: a form with everything under it, or one submission. */
  datatype Target = WholeForm(form: nat) | OneSubmission(submission: nat)

  /** The foreign keys SQLite enforces between these tables. */
  ghost predicate Linked(db: Db) {
    && (forall s | s in db.submissions :: db.submissions[s].form in db.forms)
    && (forall f | f in db.files :: db.files[f].submission in db.submissions)
    && (forall e | e in db.events :: db.events[e].submission in db.submissions)
    && (forall d | d in db.emailDeliveries :: db.emailDeliveries[d] in db.forms)
    && (forall d | d in db.webhookDeliveries :: db.webhookDeliveries[d] in db.forms)
  }

  /** Different rows have different files. */
  ghost predicate DistinctFiles(files: map<nat, FileRow>) {
    forall f, g {:trigger files[f], files[g]} | f in files && g in files && files[f].path == files[g].path :: f == g
  }

  predicate Referenced(db: Db, path: Path) {
    exists f | f in db.files :: db.files[f].path == path
  }

  predicate Exists(db: Db, target: Target) {
    match target
    case WholeForm(form) => form in db.forms
    case OneSubmission(s) => s in db.submissions
  }

  function OwnedSubmissions(db: Db, target: Target): set<nat> {
    match target
    case WholeForm(form) => set s | s in db.submissions && db.submissions[s].form == form
    case OneSubmission(s) => {s}
  }

  function OwnedFiles(db: Db, target: Target): set<nat> {
    set f | f in db.files && db.files[f].submission in OwnedSubmissions(db, target)
  }

  /** Delivery settings that do not go with the target. */
  function DeliveriesLeft(deliveries: map<nat, nat>, target: Target): map<nat, nat> {
    map d | d in deliveries && !(target.WholeForm? && deliveries[d] == target.form) :: deliveries[d]
  }

  /** The tables after the delete statements of one call, all of them. */
  function Deleted(db: Db, target: Target): Db {
    var owned := OwnedSubmissions(db, target);
    Db(
      if target.WholeForm? then db.forms - {target.form} else db.forms,
      db.submissions - owned,
      db.files - OwnedFiles(db, target),
      map e | e in db.events && db.events[e].submission !in owned :: db.events[e],
      DeliveriesLeft(db.emailDeliveries, target),
      DeliveriesLeft(db.webhookDeliveries, target))
  }

  /** The table has lost rows at most. */
  ghost predicate Remaining<K, V>(before: map<K, V>, after: map<K, V>) {
    forall k | k in after :: k in before && after[k] == before[k]
  }

  /** A delete leaves nothing of its target behind and takes nothing else, and what is left is as it was. */
  lemma DeletedIsExact(db: Db, target: Target)
    requires Linked(db)
    ensures var after := Deleted(db, target);
            && Linked(after)
            && !Exists(after, target)
            && (forall f :: f in after.forms <==> f in db.forms && target != WholeForm(f))
            && (forall s | s in db.submissions ::
                  s in after.submissions <==>
                    target != OneSubmission(s) && target != WholeForm(db.submissions[s].form))
            && (forall f | f in db.files ::
                  f in after.files <==> db.files[f].submission in after.submissions)
            && (forall e | e in db.events ::
                  e in after.events <==> db.events[e].submission in after.submissions)
            && (forall d | d in db.emailDeliveries :: d in after.emailDeliveries <==>
                db.emailDeliveries[d] in after.forms)
            && (forall d | d in db.webhookDeliveries :: d in after.webhookDeliveries <==>
                db.webhookDeliveries[d] in after.forms)
            && Remaining(db.submissions, after.submissions) && Remaining(db.files, after.files)
            && Remaining(db.events, after.events) && Remaining(db.emailDeliveries, after.emailDeliveries)
            && Remaining(db.webhookDeliveries, after.webhookDeliveries)
  {
  }
}
