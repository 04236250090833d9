/** Restarting and restoring a managed deployment: every step may fail, and failed starts are compensated. */
module Deployment {
  import opened Wrappers
  import opened Backups

  datatype Name = Base | Next

  datatype Container = Container(id: nat, running: bool)

  /**
   * A moment the host's history keeps: a container was halted or started, the database file was exchanged, or an
   * exchange or a reload reported a failure.
   */
  datatype Moment =
    | Halted(name: Name, id: nat, database: Option<File>)
    | Replaced(running: bool)
    | NotReplaced
    | NotReloaded
    | Started(name: Name, id: nat, database: Option<File>)

  /** Since the earlier history the database file was exchanged only while no application container ran. */
  ghost predicate OnlyExchangedAtRest(before: seq<Moment>, after: seq<Moment>) {
    before <= after && forall i | |before| <= i < |after| :: after[i].Replaced? ==> !after[i].running
  }

  /** The later history tells of such a failure. */
  ghost predicate Failed(before: seq<Moment>, after: seq<Moment>, failure: Moment) {
    before <= after && failure in after[|before|..]
  }

  lemma FailureStays(before: seq<Moment>, failed: seq<Moment>, after: seq<Moment>)
    requires before <= failed <= after && |before| < |failed|
    ensures Failed(before, after, failed[|failed| - 1])
  {
    assert after[|before|..][|failed| - 1 - |before|] == failed[|failed| - 1];
  }

  /** What the deployment command can see and change. */
  class Host {
    var containers: map<Name, Container>
    var database: Option<File>
    const vault: BackupDirectory
    ghost var history: seq<Moment>
    // Every command that can succeed does, and says so.
    const reliable: bool

    constructor (containers: map<Name, Container>, database: Option<File>, vault: BackupDirectory)
      ensures this.containers == containers && this.database == database && this.vault == vault
      ensures reliable == vault.reliable && history == []
    {
      this.containers, this.database, this.vault, this.reliable := containers, database, vault, vault.reliable;
      history := [];
    }

    predicate Running()
      reads this`containers
    {
      (Base in containers && containers[Base].running) || (Next in containers && containers[Next].running)
    }

    /** A running application writes its database as it likes. */
    method ApplicationWrites()
      modifies this`database
      ensures !Running() ==> database == old(database)
    {
      if Running() {
        database := *;
      }
    }

    /** `docker ps` for one name, running containers only or all; the query itself may fail. */
    method Lists(name: Name, all: bool) returns (r: Option<bool>)
      modifies this`database
      ensures !Running() ==> database == old(database)
      ensures r.Some? ==> r.value == (name in containers && (all || containers[name].running))
      ensures reliable ==> r.Some?
    {
      ApplicationWrites();
      var fails := *;
      r := if fails && !reliable then None else Some(name in containers && (all || containers[name].running));
    }

    /** `docker stop`: it may report a failure although the container has stopped. */
    method Stop(name: Name) returns (ok: bool)
      modifies this`containers, this`database, this`history
      ensures old(!Running()) ==> database == old(database)
      ensures reliable && name in old(containers) ==> ok
      ensures
        || (!ok && containers == old(containers) && history == old(history))
        || (&& name in old(containers)
            && containers == old(containers)[name := Container(old(containers)[name].id, false)]
            && |history| == |old(history)| + 1 && old(history) <= history
            && history[|old(history)|].Halted?
            && (!Running() ==> history[|old(history)|] == Halted(name, containers[name].id, database)))
    {
      ApplicationWrites();
      var happens, reports := *, *;
      happens, reports := happens || reliable, reports || reliable;
      ok := false;
      if name in containers && happens {
        containers := containers[name := Container(containers[name].id, false)];
        history := history + [Halted(name, containers[name].id, database)];
        ApplicationWrites();
        ok := reports;
      }
    }

    /** `docker rm -f`. */
    method Remove(name: Name) returns (ok: bool)
      modifies this`containers, this`database
      ensures old(!Running()) ==> database == old(database)
      ensures ok ==> containers == old(containers) - {name}
      ensures reliable ==> ok
      ensures !ok ==> containers == old(containers) || containers == old(containers) - {name}
    {
      ApplicationWrites();
      var happens, reports := *, *;
      happens, reports := happens || reliable, reports || reliable;
      ok := false;
      if happens {
        containers := containers - {name};
        ok := reports;
      }
    }

    /** `docker rename`: refused when the old name is unknown or the new one taken. */
    method Rename(from: Name, to: Name) returns (ok: bool)
      modifies this`containers, this`database
      ensures old(!Running()) ==> database == old(database)
      ensures reliable && from in old(containers) && to !in old(containers) ==> ok
      ensures ok ==>
                && from in old(containers)
                && to !in old(containers)
                && containers == (old(containers) - {from})[to := old(containers)[from]]
      ensures !ok ==>
                || containers == old(containers)
                || (from in old(containers) && to !in old(containers)
                    && containers == (old(containers) - {from})[to := old(containers)[from]])
    {
      ApplicationWrites();
      var happens, reports := *, *;
      happens, reports := happens || reliable, reports || reliable;
      ok := false;
      if from in containers && to !in containers && happens {
        containers := (containers - {from})[to := containers[from]];
        ok := reports;
      }
    }

    /** `docker start`. */
    method Start(name: Name) returns (ok: bool)
      modifies this`containers, this`database, this`history
      ensures reliable && name in old(containers) ==> ok
      ensures
        || (!ok && containers == old(containers) && history == old(history))
        || (&& name in old(containers)
            && containers == old(containers)[name := Container(old(containers)[name].id, true)]
            && |history| == |old(history)| + 1 && old(history) <= history
            && history[|old(history)|].Started?
            && (old(!Running()) ==> history[|old(history)|] == Started(name, old(containers)[name].id, old(database))))
    {
      ApplicationWrites();
      var happens, reports := *, *;
      happens, reports := happens || reliable, reports || reliable;
      ok := false;
      if name in containers && happens {
        containers := containers[name := Container(containers[name].id, true)];
        history := history + [Started(name, containers[name].id, database)];
        ApplicationWrites();
        ok := reports;
      }
    }

    /**
     * Matcha's Reload, as far as it matters here: on success a new container runs under the base name; on failure the
     * stopped base container is still there, a replacement may be left under the other name, and migrations may have
     * changed the database.
     */
    method Reload() returns (ok: bool)
      requires !Running()
      modifies this`containers, this`database, this`history
      ensures ok ==> Base in containers && containers[Base].running
      ensures ok ==> history == old(history) + [Started(Base, containers[Base].id, old(database))]
      ensures !ok ==> history == old(history) + [NotReloaded]
      ensures !ok ==>
                && (Base in containers <==> Base in old(containers))
                && (Base in containers ==> containers[Base] == old(containers)[Base])
    {
      var started: Container, leftover: Container := *, *;
      ok := *;
      if ok {
        containers := map[Base := Container(started.id, true)];
        history := history + [Started(Base, started.id, database)];
      } else {
        var left := *;
        history := history + [NotReloaded];
        containers := (containers - {Next}) + (if left then map[Next := leftover] else map[]);
      }
      database := *;
    }

    /** Nothing stands in the way of a backup. */
    ghost predicate CanSave(now: Second)
      reads this, vault
    {
      && vault.reliable && !Running() && database.Some? && database.value.valid
      && HasFree(vault.files.Keys + vault.directories, now)
    }

    /** createDatabaseBackup, of the database as it is. */
    method Backup(now: Second) returns (r: Option<string>)
      requires vault.Valid() && now.Valid()
      modifies this`database, vault
      ensures vault.Valid() && (!Running() ==> database == old(database))
      ensures r.Some? ==> SavedAs(r.value, old(vault.files), now)
      ensures old(CanSave(now)) ==> r.Some?
    {
      ApplicationWrites();
      r := vault.CreateDatabaseBackup(database, now);
    }

    /** The database is sound and was saved under that name, and pruning went by the names there were before. */
    ghost predicate SavedAs(name: string, before: map<string, File>, now: Second)
      reads this, vault
    {
      database.Some? && database.value.valid && Survives(before, vault.files, name, database.value, now)
    }

    /** replaceDatabase: the exchange is one rename; a failure may come before it or after it. */
    method Replace(file: File) returns (ok: bool)
      modifies this`database, this`history
      ensures ok ==> history == old(history) + [Replaced(old(Running()))]
      ensures !ok ==>
                || history == old(history) + [NotReplaced]
                || history == old(history) + [Replaced(old(Running())), NotReplaced]
      ensures reliable ==> ok
      ensures ok ==> old(!Running()) ==> database == Some(file)
      ensures !ok ==> old(!Running()) ==> database == old(database) || database == Some(file)
    {
      ApplicationWrites();
      var happens, reports := *, *;
      happens, reports := happens || reliable, reports || reliable;
      ok := false;
      if happens {
        history := history + [Replaced(Running())];
        database := Some(file);
        ApplicationWrites();
        ok := reports;
      }
      if !ok {
        history := history + [NotReplaced];
      }
    }
  }

  predicate IsRunning(containers: map<Name, Container>, name: Name) {
    name in containers && containers[name].running
  }

  function RunningAmong(containers: map<Name, Container>, names: seq<Name>): seq<Name> {
    if names == [] then []
    else
      RunningAmong(containers, names[..|names| - 1]) +
      (if IsRunning(containers, names[|names| - 1]) then [names[|names| - 1]] else [])
  }

  /** runningApplication: which of the two containers runs; two at once are an error. */
  method RunningApplication(h: Host) returns (err: bool, original: Option<Name>)
    modifies h`database
    ensures !h.Running() ==> h.database == old(h.database)
    ensures h.reliable ==> (err <==> IsRunning(h.containers, Base) && IsRunning(h.containers, Next))
    ensures !err && original.Some? ==> IsRunning(h.containers, original.value)
    ensures !err ==>
              && (IsRunning(h.containers, Base) ==> original == Some(Base))
              && (IsRunning(h.containers, Next) ==> original == Some(Next))
  {
    var running: seq<Name> := [];
    var names := [Base, Next];
    for n := 0 to 2
      invariant |running| <= n
      invariant running == RunningAmong(h.containers, names[..n])
      invariant !h.Running() ==> h.database == old(h.database)
    {
      var listed := h.Lists(names[n], false);
      if listed.None? {
        return true, None;
      }
      if listed.value {
        running := running + [names[n]];
      }
      assert names[..n + 1][..n] == names[..n];
    }
    assert names[..1] == [Base] && names[..2] == names && names[..1][..0] == [];
    assert RunningAmong(h.containers, names[..2])
        == RunningAmong(h.containers, [Base]) + (if IsRunning(h.containers, Next) then [Next] else []);
    if |running| > 1 {
      return true, None;
    }
    if |running| == 0 {
      return false, None;
    }
    return false, Some(running[0]);
  }

  /** Where a stopped container is kept: always under the base name. */
  ghost predicate Stopped(h: Host, id: nat)
    reads h
  {
    Base in h.containers && h.containers[Base] == Container(id, false) && !h.Running()
  }

  /** The container that was stopped runs again, alone, under the given name, and it was started on that database. */
  ghost predicate Resumed(h: Host, name: Name, id: nat, database: Option<File>)
    reads h
  {
    && h.containers == map[name := Container(id, true)]
    && h.history != [] && h.history[|h.history| - 1] == Started(name, id, database)
  }

  method RestartPreviousApplication(h: Host, original: Option<Name>) returns (ok: bool)
    modifies h`containers, h`database, h`history
    ensures OnlyExchangedAtRest(old(h.history), h.history)
    ensures original.None? ==>
              ok && h.containers == old(h.containers) && h.database == old(h.database) && h.history == old(h.history)
    ensures h.reliable && (original.Some? ==> original.value in old(h.containers)) ==> ok
    ensures original.Some? && ok ==>
              && original.value in old(h.containers)
              && h.containers == old(h.containers)[original.value := Container(old(h.containers)[original.value].id,
                  true)]
              && |h.history| == |old(h.history)| + 1
              && (old(!h.Running()) ==>
                    h.history[|h.history| - 1]
                        == Started(original.value, old(h.containers)[original.value].id, old(h.database)))
  {
    if original.None? {
      return true;
    }
    ok := h.Start(original.value);
  }

  /**
   * Why stopApplication failed: nothing was touched, the stop itself failed, or it was undone,
   * perhaps successfully.
   */
  datatype StopError = NotFound | StopFailed | Undone(completed: bool)

  /**
   * stopApplication: stops the one running container and keeps it under the base name, making room for it if needed.
   * `stopped` is the database as it was the moment nothing wrote it any more.
   */
  method StopApplication(h: Host) returns (err: Option<StopError>, original: Option<Name>, ghost id: nat,
                         ghost stopped: Option<File>)
    modifies h`containers, h`database, h`history
    ensures OnlyExchangedAtRest(old(h.history), h.history)
    ensures h.reliable ==> (err.Some? <==> old(IsRunning(h.containers, Base) && IsRunning(h.containers, Next)))
    ensures err == Some(NotFound) ==> h.containers == old(h.containers) && h.history == old(h.history)
    ensures err.Some? && !err.value.NotFound? ==>
              original.Some? && original.value in old(h.containers)
                  && old(h.containers)[original.value] == Container(id, true)
    ensures err == Some(StopFailed) ==>
              h.containers == old(h.containers)
                  || h.containers == old(h.containers)[original.value := Container(id, false)]
    ensures err == Some(Undone(true)) ==>
              && IsRunning(h.containers, original.value) && h.containers[original.value].id == id
              && |h.history| == |old(h.history)| + 2 && old(h.history) <= h.history
              && h.history[|h.history| - 2] == Halted(original.value, id, stopped)
              && h.history[|h.history| - 1] == Started(original.value, id, stopped)
    ensures err.None? ==> !h.Running() && h.database == stopped
    ensures err.None? && original.None? ==>
              h.history == old(h.history) && stopped == old(h.database) && h.containers == old(h.containers)
    ensures err.None? && original.Some? ==>
              && h.history == old(h.history) + [Halted(original.value, id, stopped)]
              && Stopped(h, id) && original.value in old(h.containers)
                  && old(h.containers)[original.value] == Container(id, true)
  {
    id := 0;
    var failed;
    failed, original := RunningApplication(h);
    stopped := h.database;
    if failed {
      err := Some(NotFound);
      return;
    }
    if original.None? {
      err := None;
      return;
    }
    id := h.containers[original.value].id;
    var ok := h.Stop(original.value);
    if !ok {
      err := Some(StopFailed);
      return;
    }
    stopped := h.database;
    if original.value == Next {
      var stale := h.Lists(Base, true);
      if stale.None? {
        ok := RestartPreviousApplication(h, original);
        err := Some(Undone(ok));
        return;
      }
      if stale.value {
        ok := h.Remove(Base);
        if !ok {
          ok := RestartPreviousApplication(h, original);
          err := Some(Undone(ok));
          return;
        }
      }
      ok := h.Rename(Next, Base);
      if !ok {
        ok := RestartPreviousApplication(h, original);
        err := Some(Undone(ok));
        return;
      }
    }
    err := None;
  }

  /** Once nothing is left under the other name, only the container under the base name remains. */
  lemma OnlyBase(containers: map<Name, Container>)
    requires Next !in containers && Base in containers
    ensures containers == map[Base := containers[Base]]
  {
    forall name | name in containers ensures name == Base {
      assert name != Next;
    }
  }

  /** prepareApplicationRollback: the replacement goes, and the stopped container gets its own name back. */
  method PrepareApplicationRollback(h: Host, original: Option<Name>) returns (ok: bool)
    requires Base in h.containers ==> !h.containers[Base].running
    modifies h`containers, h`database
    ensures h.reliable && (original.Some? ==> old(Base in h.containers)) ==> ok
    ensures ok ==> !h.Running()
    ensures ok && old(!h.Running()) ==> h.database == old(h.database)
    ensures ok && original.Some? && old(Base in h.containers) ==>
              h.containers == map[original.value := old(h.containers[Base])]
  {
    var replacement := h.Lists(Next, true);
    if replacement.None? {
      return false;
    }
    if replacement.value {
      ok := h.Remove(Next);
      if !ok {
        return;
      }
    }
    assert Next !in h.containers && !h.Running();
    if Base in h.containers {
      OnlyBase(h.containers);
    }
    if original == Some(Next) {
      ghost var stopped := h.containers;
      ok := h.Rename(Base, Next);
      if ok && Base in old(h.containers) {
        assert stopped - {Base} == map[];
        assert h.containers == map[Next := old(h.containers[Base])];
      }
      return;
    }
    ok := true;
    assert original.Some? ==> original.value == Base;
    assert Base in old(h.containers) ==> h.containers == map[Base := old(h.containers[Base])];
  }

  /** restoreDatabase: the backup is checked and copied first, then exchanged for the database. */
  method RestoreDatabase(h: Host, backup: string) returns (ok: bool)
    modifies h`database, h`history
    ensures ok ==> h.history == old(h.history) + [Replaced(old(h.Running()))]
    ensures !ok ==>
              || h.history == old(h.history) || h.history == old(h.history) + [NotReplaced]
              || h.history == old(h.history) + [Replaced(old(h.Running())), NotReplaced]
    ensures ok ==> backup in h.vault.files && h.vault.files[backup].valid
    ensures h.reliable ==> (ok <==> backup in h.vault.files && h.vault.files[backup].valid)
    ensures ok && old(!h.Running()) ==> h.database == Some(h.vault.files[backup])
  {
    if backup !in h.vault.files || !h.vault.files[backup].valid {
      return false;
    }
    ok := h.Replace(h.vault.files[backup]);
  }

  /**
   * rollbackRestore: when it succeeds, the container that was stopped runs again under the name it had, and the
   * database it was started on is the safety backup.
   */
  method RollbackRestore(h: Host, original: Option<Name>, safetyBackup: Option<string>, ghost id: nat)
    returns (ok: bool)
    requires Base in h.containers ==> !h.containers[Base].running
    requires original.Some? ==> Base in h.containers && h.containers[Base].id == id
    modifies h`containers, h`database, h`history
    ensures OnlyExchangedAtRest(old(h.history), h.history)
    ensures ok ==> safetyBackup.Some? && safetyBackup.value in h.vault.files
    ensures h.reliable ==>
              (ok <==>
                  safetyBackup.Some? && safetyBackup.value in h.vault.files && h.vault.files[safetyBackup.value].valid)
    ensures ok && original.Some? ==> Resumed(h, original.value, id, Some(h.vault.files[safetyBackup.value]))
    ensures ok && original.None? ==> !h.Running() && h.database == Some(h.vault.files[safetyBackup.value])
  {
    ok := PrepareApplicationRollback(h, original);
    if !ok {
      return;
    }
    if safetyBackup.None? {
      return false;
    }
    ok := RestoreDatabase(h, safetyBackup.value);
    if !ok {
      return;
    }
    ok := RestartPreviousApplication(h, original);
  }

  /** restartStoppedApplication: the stopped container runs again under its own name, on the database it left. */
  method RestartStoppedApplication(h: Host, original: Option<Name>, ghost id: nat) returns (ok: bool)
    requires !h.Running()
    requires original.Some? ==> Base in h.containers && h.containers[Base].id == id
    modifies h`containers, h`database, h`history
    ensures OnlyExchangedAtRest(old(h.history), h.history)
    ensures h.reliable ==> ok
    ensures ok && original.Some? ==> Resumed(h, original.value, id, old(h.database))
    ensures ok && original.None? ==> !h.Running() && h.database == old(h.database)
  {
    ok := PrepareApplicationRollback(h, original);
    if !ok {
      return;
    }
    ok := RestartPreviousApplication(h, original);
  }

  /** backupDatabaseForRestore: a missing or unsound database cannot be saved, and is not an error. */
  method BackupDatabaseForRestore(h: Host, now: Second) returns (err: bool, backup: Option<string>)
    requires !h.Running() && h.vault.Valid() && now.Valid()
    modifies h`database, h.vault
    ensures h.vault.Valid() && h.database == old(h.database)
    ensures !err && backup.None? ==> h.database.None? || !h.database.value.valid
    ensures backup.Some? ==> h.SavedAs(backup.value, old(h.vault.files), now)
    ensures h.vault.reliable && HasFree(old(h.vault.files).Keys + h.vault.directories, now) ==> !err
  {
    if h.database.None? || !h.database.value.valid {
      return false, None;
    }
    backup := h.Backup(now);
    err := backup.None?;
  }

  /** How a restart or a restore ended; `completed` says whether the compensation after a failure went through. */
  datatype Outcome =
    | Deployed
    | NotPrepared
    | NotStopped
    | NotSaved(completed: bool)
    | RolledBack(completed: bool)

  /** What was stopped: under which name, which container, on which database, and the backup taken of it then. */
  datatype Stop = Stop(original: Option<Name>, id: nat, database: Option<File>, safety: Option<string>)

  /**
   * The note is true: it tells what the halt put into the history, or nothing was running and the
   * database lay still.
   */
  ghost predicate TakenAtTheStop(stop: Stop, database: Option<File>, before: seq<Moment>, after: seq<Moment>) {
    match stop.original
    case Some(name) => |before| < |after| && after[|before|] == Halted(name, stop.id, stop.database)
    case None => stop.database == database
  }

  /** After a compensation that went through the application is where it was when it was stopped. */
  ghost predicate BackAsItWas(h: Host, stop: Stop)
    reads h
  {
    match stop.original
    case Some(name) => Resumed(h, name, stop.id, stop.database)
    case None => !h.Running() && h.database == stop.database
  }

  /** What the safety backup depends on: fewer than three recognised names there were before come after its own. */
  ghost predicate Lasting(safety: Option<string>, before: map<string, File>) {
    safety.Some? && |Later(Recognised(before.Keys), safety.value)| < KEPT
  }

  /**
   * restartDeployment. With commands that work, a failed start is rolled back exactly when the safety backup outlives
   * its own pruning; so it always is when all backups there are were made in earlier seconds.
   */
  method RestartDeployment(h: Host, now: Second) returns (outcome: Outcome, ghost stop: Stop)
    requires h.vault.Valid() && now.Valid()
    modifies h`containers, h`database, h`history, h.vault
    ensures h.vault.Valid() && OnlyExchangedAtRest(old(h.history), h.history)
    ensures outcome.Deployed? ==>
              && IsRunning(h.containers, Base)
              && |h.history| > |old(h.history)|
              && h.history[|h.history| - 1] == Started(Base, h.containers[Base].id, stop.database)
    ensures !outcome.NotStopped? ==> TakenAtTheStop(stop, old(h.database), old(h.history), h.history)
    ensures !outcome.NotStopped? && stop.original.Some? ==>
              stop.original.value in old(h.containers)
                  && old(h.containers)[stop.original.value] == Container(stop.id, true)
    ensures (outcome.NotSaved? || outcome.RolledBack?) && outcome.completed ==> BackAsItWas(h, stop)
    ensures outcome != NotPrepared
    ensures h.reliable && outcome.NotStopped? ==>
              old(IsRunning(h.containers, Base) && IsRunning(h.containers, Next))
    ensures h.reliable && h.vault.reliable && outcome.NotSaved? ==>
              || stop.database.None? || !stop.database.value.valid
              || !HasFree(old(h.vault.files).Keys + h.vault.directories, now)
    ensures outcome.RolledBack? ==> stop.safety.Some? && Failed(old(h.history), h.history, NotReloaded)
    ensures outcome.RolledBack? && outcome.completed ==> Lasting(stop.safety, old(h.vault.files))
    ensures h.reliable && outcome.NotSaved? ==> outcome.completed
    ensures h.reliable && outcome.RolledBack? ==> (outcome.completed <==> Lasting(stop.safety, old(h.vault.files)))
    ensures h.reliable && AllEarlier(old(h.vault.files).Keys, now) && outcome.RolledBack? ==> outcome.completed
  {
    var err, original, id, stopped := StopApplication(h);
    stop := Stop(original, id, stopped, None);
    if err.Some? {
      return NotStopped, stop;
    }
    ghost var halted := h.history;
    outcome, stop := RestartStopped(h, original, now, stop);
    StillFailed(old(h.history), halted, h.history);
  }

  lemma StillFailed(earlier: seq<Moment>, before: seq<Moment>, after: seq<Moment>)
    requires earlier <= before
    ensures forall failure | Failed(before, after, failure) :: Failed(earlier, after, failure)
  {
    forall failure | Failed(before, after, failure) ensures Failed(earlier, after, failure) {
      var i :| 0 <= i < |after[|before|..]| && after[|before|..][i] == failure;
      assert after[|earlier|..][|before| - |earlier| + i] == failure;
    }
  }

  /** Its second half, from the safety backup on; nothing runs any more. */
  method RestartStopped(h: Host, original: Option<Name>, now: Second, ghost taken: Stop)
    returns (outcome: Outcome, ghost stop: Stop)
    requires h.vault.Valid() && now.Valid() && !h.Running()
    requires taken.original == original && taken.database == h.database
    requires original.Some? ==> Base in h.containers && h.containers[Base].id == taken.id
    modifies h`containers, h`database, h`history, h.vault
    ensures h.vault.Valid() && OnlyExchangedAtRest(old(h.history), h.history)
    ensures stop == taken.(safety := stop.safety) && !outcome.NotPrepared? && !outcome.NotStopped?
    ensures outcome.Deployed? ==>
              && IsRunning(h.containers, Base) && |h.history| > |old(h.history)|
              && h.history[|h.history| - 1] == Started(Base, h.containers[Base].id, stop.database)
    ensures (outcome.NotSaved? || outcome.RolledBack?) && outcome.completed ==> BackAsItWas(h, stop)
    ensures h.reliable && h.vault.reliable && outcome.NotSaved? ==>
              || stop.database.None? || !stop.database.value.valid
              || !HasFree(old(h.vault.files).Keys + h.vault.directories, now)
    ensures outcome.RolledBack? ==> stop.safety.Some? && Failed(old(h.history), h.history, NotReloaded)
    ensures outcome.RolledBack? && outcome.completed ==> Lasting(stop.safety, old(h.vault.files))
    ensures h.reliable && outcome.NotSaved? ==> outcome.completed
    ensures h.reliable && outcome.RolledBack? ==> (outcome.completed <==> Lasting(stop.safety, old(h.vault.files)))
    ensures h.reliable && AllEarlier(old(h.vault.files).Keys, now) && outcome.RolledBack? ==> outcome.completed
  {
    hide Failed;
    var safety := h.Backup(now);
    stop := taken.(safety := safety);
    if safety.None? {
      var ok := RestartStoppedApplication(h, original, taken.id);
      return NotSaved(ok), stop;
    }
    var ok := h.Reload();
    if !ok {
      ghost var failed := h.history;
      ok := RollbackRestore(h, original, safety, taken.id);
      FailureStays(old(h.history), failed, h.history);
      return RolledBack(ok), stop;
    }
    return Deployed, stop;
  }

  /**
   * The restore command: the selected backup is checked and copied before anything is stopped. Its rollback is as
   * certain as that of a restart, once there was a sound database to save.
   */
  method RestoreSelected(h: Host, selected: string, now: Second) returns (outcome: Outcome, ghost stop: Stop)
    requires h.vault.Valid() && now.Valid()
    modifies h`containers, h`database, h`history, h.vault
    ensures h.vault.Valid() && OnlyExchangedAtRest(old(h.history), h.history)
    ensures selected !in old(h.vault.files) || !old(h.vault.files)[selected].valid ==> outcome.NotPrepared?
    ensures h.reliable && outcome.NotPrepared? ==>
              selected !in old(h.vault.files) || !old(h.vault.files)[selected].valid
    ensures h.reliable && outcome.NotStopped? ==>
              old(IsRunning(h.containers, Base) && IsRunning(h.containers, Next))
    ensures outcome.NotPrepared? ==>
              && h.containers == old(h.containers) && h.database == old(h.database) && h.history == old(h.history)
              && h.vault.files == old(h.vault.files)
    ensures outcome.Deployed? ==>
              && IsRunning(h.containers, Base)
              && selected in old(h.vault.files)
              && |h.history| > |old(h.history)|
              && h.history[|h.history| - 1] == Started(Base, h.containers[Base].id, Some(old(h.vault.files)[selected]))
    ensures !outcome.NotPrepared? && !outcome.NotStopped? ==>
              TakenAtTheStop(stop, old(h.database), old(h.history), h.history)
    ensures !outcome.NotPrepared? && !outcome.NotStopped? && stop.original.Some? ==>
              stop.original.value in old(h.containers)
                  && old(h.containers)[stop.original.value] == Container(stop.id, true)
    ensures (outcome.NotSaved? || outcome.RolledBack?) && outcome.completed ==> BackAsItWas(h, stop)
    ensures outcome.RolledBack? ==>
              (stop.safety.Some? <==> stop.database.Some? && stop.database.value.valid)
    ensures outcome.RolledBack? ==>
              || Failed(old(h.history), h.history, NotReloaded)
              || (!h.reliable && Failed(old(h.history), h.history, NotReplaced))
    ensures h.vault.reliable && outcome.NotSaved? ==>
              !HasFree(old(h.vault.files).Keys + h.vault.directories, now)
    ensures outcome.RolledBack? && outcome.completed ==> Lasting(stop.safety, old(h.vault.files))
    ensures h.reliable && outcome.NotSaved? ==> outcome.completed
    ensures h.reliable && outcome.RolledBack? ==> (outcome.completed <==> Lasting(stop.safety, old(h.vault.files)))
    ensures h.reliable && AllEarlier(old(h.vault.files).Keys, now) && outcome.RolledBack? && stop.safety.Some? ==>
              outcome.completed
  {
    hide Failed, BackAsItWas, Lasting, Later, Recognised, AllEarlier, HasFree;
    stop := Stop(None, 0, None, None);
    var fails := *;
    if selected !in h.vault.files || !h.vault.files[selected].valid || (fails && !h.reliable) {
      return NotPrepared, stop;
    }
    var staged := h.vault.files[selected];
    var err, original, id, stopped := StopApplication(h);
    stop := Stop(original, id, stopped, None);
    if err.Some? {
      return NotStopped, stop;
    }
    ghost var halted := h.history;
    outcome, stop := RestoreStopped(h, staged, original, now, stop);
    StillFailed(old(h.history), halted, h.history);
  }

  /** Its second half, from the safety backup on; nothing runs any more. */
  method RestoreStopped(h: Host, staged: File, original: Option<Name>, now: Second, ghost taken: Stop)
    returns (outcome: Outcome, ghost stop: Stop)
    requires h.vault.Valid() && now.Valid() && !h.Running()
    requires taken.original == original && taken.database == h.database
    requires original.Some? ==> Base in h.containers && h.containers[Base].id == taken.id
    modifies h`containers, h`database, h`history, h.vault
    ensures h.vault.Valid() && OnlyExchangedAtRest(old(h.history), h.history)
    ensures stop == taken.(safety := stop.safety) && !outcome.NotPrepared? && !outcome.NotStopped?
    ensures outcome.Deployed? ==>
              && IsRunning(h.containers, Base) && |h.history| > |old(h.history)|
              && h.history[|h.history| - 1] == Started(Base, h.containers[Base].id, Some(staged))
    ensures (outcome.NotSaved? || outcome.RolledBack?) && outcome.completed ==> BackAsItWas(h, stop)
    ensures outcome.RolledBack? ==>
              (stop.safety.Some? <==> stop.database.Some? && stop.database.value.valid)
    ensures outcome.RolledBack? ==>
              || Failed(old(h.history), h.history, NotReloaded)
              || (!h.reliable && Failed(old(h.history), h.history, NotReplaced))
    ensures h.vault.reliable && outcome.NotSaved? ==>
              !HasFree(old(h.vault.files).Keys + h.vault.directories, now)
    ensures outcome.RolledBack? && outcome.completed ==> Lasting(stop.safety, old(h.vault.files))
    ensures h.reliable && outcome.NotSaved? ==> outcome.completed
    ensures h.reliable && outcome.RolledBack? ==> (outcome.completed <==> Lasting(stop.safety, old(h.vault.files)))
    ensures h.reliable && AllEarlier(old(h.vault.files).Keys, now) && outcome.RolledBack? && stop.safety.Some? ==>
              outcome.completed
  {
    hide Failed;
    var unsaved, safety := BackupDatabaseForRestore(h, now);
    stop := taken.(safety := safety);
    if unsaved {
      var ok := RestartStoppedApplication(h, original, taken.id);
      return NotSaved(ok), stop;
    }
    var ok := h.Replace(staged);
    if !ok {
      ghost var failed := h.history;
      ok := RollbackRestore(h, original, safety, taken.id);
      FailureStays(old(h.history), failed, h.history);
      return RolledBack(ok), stop;
    }
    ok := h.Reload();
    if !ok {
      ghost var failed := h.history;
      ok := RollbackRestore(h, original, safety, taken.id);
      FailureStays(old(h.history), failed, h.history);
      return RolledBack(ok), stop;
    }
    return Deployed, stop;
  }
}
