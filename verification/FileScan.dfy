/** The content pass over the files of one root: the per-file decision of file_list.c, the resumable
    hashing of sha512sum.c, the save point of db_save_file_record.c and the shared batch of
    db_file_transaction.c. */
module FileScan {
  import opened Common
  import opened Status
  import opened Sha512
  import opened Store
  import opened Soundness
  import opened Journal

  const FILE_READ_BUFFER_SIZE := 65536

  // ----- The attached row -----

  const ZERO_DIGEST: Digest := Zeros(64)
  const ZERO_CONTEXT := Context(0, [], [])
  const ZERO_STAT := Stat(0, 0, 0, 0, 0, 0, 0, 0)

  /** `DBrow`: the stored row as loaded before processing, with NULL columns read as zeros. */
  datatype SavedRow = SavedRow(
    wasInDb: bool, offset: nat, stat: Stat, ctx: Context, digest: Digest)

  const NO_ROW := SavedRow(false, 0, ZERO_STAT, ZERO_CONTEXT, ZERO_DIGEST)

  function Decode(r: Row): SavedRow {
    SavedRow(
      true,
      if r.offset.Some? then r.offset.value else 0,
      r.stat,
      if r.ctx.Some? then r.ctx.value else ZERO_CONTEXT,
      if r.digest.Some? then r.digest.value else ZERO_DIGEST)
  }

  /** The column values bound by INSERT and UPDATE. */
  function Encode(
    path: Path, stat: Stat, offset: nat, digest: Digest, ctx: Context, zeroSize: bool, wrongType: bool): Row
  {
    Row(
      path,
      if offset == 0 then None else Some(offset),
      if offset == 0 && !zeroSize && !wrongType then Some(digest) else None,
      stat,
      if offset == 0 then None else Some(ctx))
  }

  // ----- The decision before hashing -----

  datatype Plan = Plan(
    identical: bool, hasSavedOffset: bool, lockReady: bool, upToDate: bool,
    rehash: bool, resume: bool, restart: bool, zeroSize: bool, violation: bool, driftOnly: bool)

  function MakePlan(cfg: Config, locked: bool, saved: SavedRow, stat: Stat): Plan {
    var known := saved.wasInDb;
    var changes := if known then Compare(saved.stat, stat) else NOT_EQUAL;
    var identical := changes == IDENTICAL;
    var hasSavedOffset := saved.offset > 0;
    var lockReady := locked && known && !hasSavedOffset;
    var timestampsChanged := changes.ctime || changes.mtime;
    var unwatchedOnly :=
      known && !identical && !cfg.watchTimestamps && !changes.size && !changes.mtime && !hasSavedOffset;
    var zeroSize := stat.size == 0;
    Plan(
      identical, hasSavedOffset, lockReady,
      known && identical && !hasSavedOffset && !(cfg.rehashLocked && lockReady),
      !zeroSize && (!unwatchedOnly || (lockReady && cfg.rehashLocked)),
      hasSavedOffset && identical,
      hasSavedOffset && !identical,
      zeroSize,
      lockReady && (changes.size || (cfg.watchTimestamps && !cfg.rehashLocked && timestampsChanged)),
      lockReady && !cfg.watchTimestamps && !cfg.rehashLocked && timestampsChanged && !changes.size)
  }

  /** The final decision to overwrite a row that exists. */
  predicate ShouldUpdate(cfg: Config, locked: bool, saved: SavedRow, plan: Plan, offset: nat) {
    && (!saved.wasInDb || !locked || cfg.rehashLocked || plan.hasSavedOffset)
    && (!saved.wasInDb || offset > saved.offset || (plan.hasSavedOffset && offset == 0) || !plan.identical)
  }

  /** `match_include_ignore`: an include pattern is asked first and overrides every ignore pattern. */
  function IsIgnored(cfg: Config, p: Path): (r: Option<bool>)
    ensures cfg.includes(p) == Hit ==> r == Some(false)
    ensures cfg.includes(p) == Miss && cfg.ignores(p) == Hit ==> r == Some(true)
    ensures cfg.includes(p) == Miss && cfg.ignores(p) == Miss ==> r == Some(false)
    ensures r == None ==> cfg.includes(p) == Broken || cfg.ignores(p) == Broken
  {
    match cfg.includes(p)
    case Hit => Some(false)
    case Broken => None
    case Miss =>
      match cfg.ignores(p)
      case Hit => Some(true)
      case Broken => None
      case Miss => Some(false)
  }

  /** `File`: the state of one file while it is processed. */
  class FileState {
    const path: Path
    const stat: Stat
    var id: RowId  // the row that holds this path, once it is known
    var saved: SavedRow
    var locked: bool
    var ignored: bool
    var readable: bool
    var unavailable: bool  // a locked path that could not be accessed was reported
    var rehash: bool
    var restarted: bool
    var zeroSize: bool
    var wrongType: bool
    var readError: bool
    var violation: bool
    var mismatch: bool
    var hashInterrupted: bool
    var inserted: bool
    var updated: bool
    var offset: nat
    var ctx: Context
    var digest: Digest

    constructor (path: Path, stat: Stat)
      ensures this.path == path && this.stat == stat && saved == NO_ROW
      ensures !locked && !ignored && !readable && !unavailable && !rehash && !restarted && !zeroSize
      ensures !wrongType && !readError && !violation && !mismatch && !hashInterrupted
      ensures !inserted && !updated && offset == 0 && digest == ZERO_DIGEST
    {
      this.path, this.stat, id, saved := path, stat, 0, NO_ROW;
      locked, ignored, readable, unavailable := false, false, false, false;
      rehash, restarted, zeroSize, wrongType, readError := false, false, false, false, false;
      violation, mismatch, hashInterrupted, inserted, updated := false, false, false, false, false;
      offset, ctx, digest := 0, ZERO_CONTEXT, ZERO_DIGEST;
    }

    /** Nothing has been hashed, saved or reported yet. */
    predicate Untouched()
      reads this`inserted, this`updated, this`readError, this`wrongType
      reads this`violation, this`mismatch, this`hashInterrupted, this`offset, this`digest
    {
      && !inserted && !updated && !readError && !wrongType && !violation && !mismatch && !hashInterrupted
      && offset == 0 && digest == ZERO_DIGEST
    }

    function AsRow(): Row
      reads this`offset, this`digest, this`ctx, this`zeroSize, this`wrongType
    {
      Encode(path, stat, offset, digest, ctx, zeroSize, wrongType)
    }
  }

  /** The clock and the offset of the last point in the pass from which a crash would resume. */
  datatype Mark = Mark(safeNs: int, safeOffset: nat)

  /** What to do after a stage: continue with this file, leave it, or end the traversal. */
  datatype Next = Go | Skip | Stop

  ghost predicate PathsDiffer(visits: seq<Visit>) {
    forall i, j :: 0 <= i < j < |visits| ==> visits[i].path != visits[j].path
  }

  // ----- What a run owes to a file -----

  predicate Hashing(env: Env) {
    !env.cfg.dryRun || env.cfg.dryRunWithChecksums
  }

  /** A readable, visible file whose row was not sealed when the run began. */
  predicate Ordinary(env: Env, v: Visit) {
    && v.path !in env.world.exempt && v.access == Allowed && v.path !in env.seals
    && (Locked(env, v.path) || IsIgnored(env.cfg, v.path) == Some(false))
  }

  /** A path that the filters or a lock let through, and that can be read. */
  predicate Visible(env: Env, v: Visit) {
    v.access == Allowed && (Locked(env, v.path) || IsIgnored(env.cfg, v.path) != Some(true))
  }

  /** A path that an include pattern hits is processed whatever the ignore patterns say. */
  lemma IncludedIsOrdinary(env: Env, v: Visit)
    requires env.cfg.includes(v.path) == Hit && v.access == Allowed
    requires v.path !in env.world.exempt && v.path !in env.seals
    ensures Ordinary(env, v)
  {
  }

  /** A path that only an ignore pattern hits is not processed, unless it is locked. */
  lemma IgnoredIsInvisible(env: Env, v: Visit)
    requires env.cfg.includes(v.path) == Miss && env.cfg.ignores(v.path) == Hit && env.cfg.locks(v.path) != Hit
    ensures !Visible(env, v)
  {
  }

  /** A complete row for the file as it was met, with the one-shot digest of its content. */
  ghost predicate Covered(env: Env, t: Table, v: Visit) {
    exists id :: id in t && CoveredBy(env, t[id], v)
  }

  predicate CoveredBy(env: Env, r: Row, v: Visit) {
    && r.path == v.path && Identical(r.stat, v.stat) && r.offset == None
    && r.digest == if v.stat.size == 0 then None else Some(DigestOf(env.world.comp, v.content))
  }

  /** The metadata of a finished locked file must not have changed. */
  predicate Diverged(env: Env, saved: SavedRow, now: Stat) {
    var c := Compare(saved.stat, now);
    c.size || (env.cfg.watchTimestamps && !env.cfg.rehashLocked && (c.mtime || c.ctime))
  }

  /** --rehash-locked finds another digest. */
  predicate Corrupt(env: Env, saved: SavedRow, v: Visit) {
    && env.cfg.rehashLocked && v.seekable && v.stat.size > 0
    && saved.digest != if Hashing(env) then DigestOf(env.world.comp, v.content) else ZERO_DIGEST
  }

  /** A known locked file cannot be accessed, or is finished and no longer what it was. */
  predicate Alarm(env: Env, saved: SavedRow, v: Visit) {
    && saved.wasInDb && Locked(env, v.path)
    && (v.access != Allowed || (saved.offset == 0 && (Diverged(env, saved, v.stat) || Corrupt(env, saved, v))))
  }

  /** The database holds a row on which this file must be reported. */
  ghost predicate Alarming(env: Env, t: Table, v: Visit) {
    exists id :: id in t && t[id].path == v.path && Alarm(env, Decode(t[id]), v)
  }

  /** One of the files that could be read must be reported. */
  ghost predicate Alarms(env: Env, visits: seq<Visit>, errors: set<Path>, t: Table) {
    exists j :: 0 <= j < |visits| && visits[j].path !in errors && Alarming(env, t, visits[j])
  }

  /** Before the first file. */
  function Opening(t: Table): Turn {
    Turn(t, {}, {}, t, t)
  }

  class Scan {
    const env: Env
    const db: Database

    var active: bool  // file_transaction_active
    var startedNs: int  // file_transaction_started_ns
    var now: int  // the last value of the monotonic clock
    var interrupted: bool  // global_interrupt_flag
    ghost var broken: bool  // an unfinished row has taken the place of a sealed one
    ghost var turn: Turn  // the file being processed, and what came before it
    ghost var journal: Events
    ghost var readings: seq<int>  // of the clock

    constructor (env: Env, db: Database)
      requires db.faults == env.fate.faults && db.Valid() && !db.open && db.looseWrites == 0
      requires db.log == [Snapshot(db.durable, db.durable, 0)] && TableSound(env.world, db.durable)
      requires SealsProper(env) && Guarded(env, db.durable) && Intact(env, db.durable)
      requires TurnProper(env, Opening(db.durable))
      ensures this.env == env && this.db == db && Inv() && !active && !interrupted && !broken &&
                turn == Opening(db.durable) && journal == [] && readings == [] && Recorded()
    {
      this.env, this.db := env, db;
      active, startedNs, now, interrupted, broken, turn := false, 0, 0, false, false, Opening(db.durable);
      journal, readings := [], [];
      new;
      LogStart(env, db.durable);
    }

    /** No file row is written outside a batch, and an inactive flag means no open transaction. */
    ghost predicate Inv()
      reads this`active, this`startedNs, this`now, this`broken, this`turn, db
    {
      && db.Valid() && db.faults == env.fate.faults
      && db.looseWrites == 0
      && LogOK(env, db.log) && SealsProper(env)
      && (!broken ==> Intact(env, db.view) && Intact(env, db.durable))
      && TurnProper(env, turn) && InTurn(turn, db.view) && InTurn(turn, db.durable)
      && (!active ==> !db.open)
      && (active ==> startedNs <= now && !env.cfg.dryRun)
    }

    /** The batch, if there is one, has not been rolled back behind the program's back. */
    ghost predicate Healthy()
      reads this`active, db`open
    {
      active ==> db.open
    }

    /** The journal is in order, and a batch that is lost has been lost to a failure. */
    ghost predicate Recorded()
      reads this`active, db`open, this`turn, this`journal, this`readings
    {
      Noted(turn.taken, journal, readings) && (active && !db.open ==> MayFail(env))
      && (MayFail(env) || Untroubled(journal))
    }

    // ----- The environment -----

    /** Nothing has failed; an interruption may have been noticed. */
    predicate Calm(status: Return)
      reads this`interrupted
    {
      status == SUCCESS || (status == Normalize(SUCCESS, true) && interrupted)
    }

    predicate Failed(status: Return) {
      status.failure && !status.success && !status.warning
    }

    /** The flag is never cleared, and raised only when signals arrive. */
    twostate predicate Signalled()
      reads this`interrupted
    {
      (old(interrupted) ==> interrupted) && (interrupted ==> old(interrupted) || env.fate.signals)
    }

    /** A signal may arrive at any moment; the flag is never cleared. */
    method Poll()
      modifies this`interrupted
      ensures Signalled()
    {
      var signal: bool := *;
      if signal && env.fate.signals {
        interrupted := true;
      }
    }

    method Clock() returns (t: int)
      modifies this`now, this`readings
      ensures old(now) <= now == t && readings == old(readings) + [t]
      ensures (old(Inv()) ==> Inv()) && (old(Recorded()) ==> Recorded())
    {
      hide LogOK, Intact, TurnProper, InTurn, SealsProper, UniquePaths, Noted;
      t := *;
      t := if t < now then now else t;
      now := t;
      if Noted(turn.taken, journal, readings) {
        NotedReading(turn.taken, journal, readings, readings + [t]);
      }
      readings := readings + [t];
    }

    /** A block has been read, an entry is taken up, or a file cannot be read. */
    ghost method Note(e: Event)
      requires e.Trouble? ==> MayFail(env)
      requires Recorded() && Idle(journal) && !e.Look? && (e.Block? ==> e.path in turn.taken)
      modifies this`journal
      ensures Recorded() && journal == old(journal) + [e]
      ensures Idle(journal) == !CallsForLook(e)
      ensures Entries(journal) == Entries(old(journal)) + if e.Entry? then [e.path] else []
      ensures Position(journal, e.path) == if e.Block? then e.to else Position(old(journal), e.path)
      ensures !e.Block? && old(Unread(journal, e.path)) ==> Unread(journal, e.path)
      ensures Troubled(journal, e.path) <==> Troubled(old(journal), e.path) || e.Trouble?
    {
      hide Noted;
      NotedEvent(turn.taken, journal, readings, e);
      Appended(journal, e);
      journal := journal + [e];
    }

    /** The deadlines have been looked at. */
    ghost method NoteLook(look: Event)
      requires Recorded() && look.Look? && InTime(journal, look) && (look.to > 0 ==> look.path in turn.taken)
      requires journal != [] && Answers(journal[|journal| - 1], look, readings)
      requires look.active == active && look.startedNs == startedNs
      modifies this`journal
      ensures Recorded() && journal == old(journal) + [look]
      ensures Idle(journal) && Entries(journal) == Entries(old(journal))
      ensures Position(journal, look.path) == Position(old(journal), look.path)
      ensures look.to == 0 && old(Unread(journal, look.path)) ==> Unread(journal, look.path)
      ensures Troubled(journal, look.path) == Troubled(old(journal), look.path)
    {
      hide Noted;
      NotedLook(turn.taken, journal, readings, look);
      Appended(journal, look);
      journal := journal + [look];
    }

    /** A failure has its cause outside. */
    ghost predicate Blames(failed: bool)
    {
      failed ==> MayFail(env)
    }

    /** The clock moves on, and a failure has its cause outside. */
    twostate predicate Quiet(failed: bool)
      reads this`active, db`open, this`turn, this`journal, this`readings
    {
      && old(readings) <= readings
      && (old(Recorded()) ==> Recorded() && Blames(failed))
    }

    /** The journal goes on in order, and nothing else is taken up. */
    twostate predicate Onward()
      reads this`active, db`open, this`turn, this`journal, this`readings
    {
      old(journal) <= journal && Entries(journal) == Entries(old(journal)) && Recorded()
    }

    /** The end of every function: `provide(status)`. */
    method Provide(s: Return) returns (r: Return)
      modifies this`interrupted
      ensures Signalled()
      ensures r == Normalize(s, interrupted)
    {
      Poll();
      r := Normalize(s, interrupted);
    }

    /** The merge performed by `call`, and by `run` once it has decided to execute. */
    method Merged(a: Return, b: Return) returns (r: Return)
      modifies this`interrupted
      ensures Signalled()
      ensures r == Merge(a, b, interrupted)
    {
      Poll();
      r := Merge(a, b, interrupted);
    }

    /** The end of a function whose outcome depends on something outside. */
    method Answer(ok: bool) returns (r: Return)
      modifies this`interrupted
      ensures Signalled()
      ensures r == Normalize(if ok then SUCCESS else FAILURE, interrupted)
    {
      r := Provide(if ok then SUCCESS else FAILURE);
    }

    /** A helper whose only effect here is that it may fail. */
    method Attempt() returns (r: Return)
      modifies this`interrupted
      ensures Signalled() && Blames(r.failure)
      ensures r == Normalize(SUCCESS, interrupted) || r == Normalize(FAILURE, interrupted)
    {
      var ok: bool := *;
      ok := ok || !env.fate.faults;
      r := Answer(ok);
    }

    /** Commits and rollbacks only: no table other than the two that were current. */
    ghost predicate NoWrite(d: Table, v: Table)
      reads db`view, db`durable
    {
      (db.view == v || db.view == d) && (db.durable == v || db.durable == d)
    }

    /** SQLite may end the batch behind the program's back between two statements. */
    method Disturb()
      requires Inv()
      modifies db`view, db`open, db`log, db`epoch
      ensures Quiet(false)
      ensures Inv() && old(db.log) <= db.log
      ensures env.cfg.dryRun ==> db.log == old(db.log)
      ensures Healthy() ==> db.view == old(db.view) && old(Healthy()) && db.epoch == old(db.epoch)
      ensures db.view == old(db.view) || db.view == old(db.durable)
    {
      hide Intact, TurnProper, InTurn, SealsProper, UniquePaths, Noted, LogOK;
      ghost var before := db.log;
      db.AutoRollback();
      if db.log != before {
        LogGrow(env, before, db.log[|before|]);
      }
    }

    // ----- The shared batch -----

    method TransactionBegin() returns (status: Return)
      requires Inv()
      modifies this`active, this`startedNs, this`now, this`interrupted, this`readings, db`open
      ensures Inv() && old(now) <= now && Signalled()
      ensures Quiet(status.failure)
      ensures status == Normalize(SUCCESS, interrupted) || status == Normalize(FAILURE, interrupted)
      ensures status.success && !env.cfg.dryRun ==> active && db.open
      ensures old(active) || env.cfg.dryRun ==>
                active == old(active) && startedNs == old(startedNs) && db.open == old(db.open)
      ensures !old(active) && active ==> old(now) <= startedNs
      ensures !status.success ==> active == old(active) && db.open == old(db.open)
    {
      hide LogOK, Intact, TurnProper, InTurn, SealsProper, UniquePaths, Noted;
      status := SUCCESS;
      if env.cfg.dryRun {
        status := Provide(status);
        return;
      }
      if active {
        if !db.open {
          status := FAILURE;
        }
        status := Provide(status);
        return;
      }
      var ok := db.Begin();
      if !ok {
        status := FAILURE;
      } else {
        active := true;
        startedNs := Clock();
      }
      status := Provide(status);
    }

    method TransactionCommit() returns (status: Return)
      requires Inv()
      modifies this`active, this`interrupted, db
      ensures Inv() && Signalled() && old(db.log) <= db.log
      ensures Quiet(status.failure)
      ensures status == Normalize(SUCCESS, interrupted) || status == Normalize(FAILURE, interrupted)
      ensures status.success ==> !active && !db.open && db.durable == db.view == old(db.view)
      ensures status.success ==> old(Healthy()) && db.epoch == old(db.epoch)
      ensures !old(active) || env.cfg.dryRun ==> status.success && db.log == old(db.log)
      ensures !status.success ==> active && db.durable == old(db.durable)
      ensures NoWrite(old(db.durable), old(db.view))
    {
      hide LogOK, Intact, TurnProper, InTurn, SealsProper, UniquePaths, Noted;
      status := SUCCESS;
      if active {
        ghost var before := db.log;
        var ok := db.Commit();
        if db.log != before {
          LogGrow(env, before, db.log[|before|]);
        }
        if !ok {
          status := FAILURE;
        } else {
          active := false;
        }
      }
      status := Provide(status);
    }

    /** Before every entry: commit once the interval has elapsed. */
    method TransactionCheck(nowNs: int) returns (status: Return)
      requires Inv() && nowNs == now
      modifies this`active, this`interrupted, db
      ensures Inv() && Signalled() && old(db.log) <= db.log
      ensures Quiet(status.failure)
      ensures status == Normalize(SUCCESS, interrupted) || status == Normalize(FAILURE, interrupted)
      ensures status.success && active ==> nowNs - startedNs < DB_CHECKPOINT_INTERVAL_NS
      ensures status.success && old(Healthy()) ==> Healthy() && db.view == old(db.view)
      ensures Healthy() && status.success ==> old(Healthy()) && db.epoch == old(db.epoch)
      ensures !old(active) ==> status.success && db.log == old(db.log)
      ensures NoWrite(old(db.durable), old(db.view))
      ensures !status.success ==> active && db.durable == old(db.durable)
    {
      hide LogOK, Intact, TurnProper, InTurn, SealsProper, UniquePaths, Noted;
      status := SUCCESS;
      if active && nowNs - startedNs >= DB_CHECKPOINT_INTERVAL_NS {
        var r := TransactionCommit();
        status := Merged(status, r);
      }
      status := Provide(status);
    }

    method TransactionRollback() returns (status: Return)
      requires Inv()
      modifies this`active, this`interrupted, db`view, db`open, db`log, db`epoch
      ensures Inv() && Signalled() && old(db.log) <= db.log
      ensures Quiet(status.failure)
      ensures status == Normalize(SUCCESS, interrupted) || status == Normalize(FAILURE, interrupted)
      ensures status.success ==> !active && !db.open
      ensures !old(active) ==> db.log == old(db.log)
    {
      hide LogOK, Intact, TurnProper, InTurn, SealsProper, UniquePaths, Noted;
      status := SUCCESS;
      if active {
        if db.open {
          ghost var before := db.log;
          var ok := db.Rollback();
          if db.log != before {
            LogGrow(env, before, db.log[|before|]);
          }
          if !ok {
            status := FAILURE;
          }
        }
        if status.success {
          active := false;
        }
      }
      status := Provide(status);
    }

    // ----- Saving one row -----

    /** The row about to be written is true, and replacing the stored row with it is allowed. */
    ghost predicate MayWriteIf(f: FileState, known: bool, whole: bool)
      reads db`view, f`id, f`offset, f`digest, f`ctx, f`zeroSize, f`wrongType
    {
      !env.cfg.dryRun ==>
      && (f.path !in env.world.exempt ==> RowSound(env.world, f.AsRow()))
      && (whole ==>
            && (!known ==> !HasPath(db.view, f.path))
            && (known ==>
                  && f.id in db.view && db.view[f.id].path == f.path
                  && RowStep(env, db.view[f.id], f.AsRow())))
    }

    ghost predicate MayWrite(f: FileState, known: bool)
      reads this`active, db`open, db`view, f`id, f`offset, f`digest, f`ctx, f`zeroSize, f`wrongType
    {
      MayWriteIf(f, known, Healthy())
    }

    /** The row does not replace the digest of a sealed row, and breaks a seal only when that is on record. */
    ghost predicate Permitted(f: FileState)
      reads this`broken, this`turn, f`offset, f`digest, f`ctx, f`zeroSize, f`wrongType
    {
      !env.cfg.dryRun ==>
          RowGuarded(env, f.AsRow()) && f.path in turn.current && (f.path in env.seals && f.offset > 0 ==> broken)
    }

    lemma NewPath(f: FileState)
      requires MayWriteIf(f, false, true) && !env.cfg.dryRun
      ensures !HasPath(db.view, f.path)
    {
    }

    /** The table with the new row is an allowed change of the view. */
    lemma WriteAllowed(f: FileState, known: bool, id: RowId)
      requires Inv() && MayWriteIf(f, known, true) && Permitted(f) && !env.cfg.dryRun
      requires if known then id == f.id else id !in db.view
      ensures
        var t := db.view[id := f.AsRow()];
        && TableStep(env, db.view, t) && TableSound(env.world, t) && Guarded(env, t) && (!broken ==> Intact(env, t))
        && InTurn(turn, t)
      ensures known ==> id in db.view && db.view[id].path == f.path
    {
      hide RowSound, RowStep, RowGuarded, Intact;
      assert db.log[|db.log| - 1].view == db.view;
      StepKept(db.view);
      GuardedWrite(env, db.view, id, f.AsRow());
      TurnWrite(turn, db.view, id, f.AsRow());
      if !broken {
        IntactWrite(env, db.view, id, f.AsRow());
      }
    }

    lemma StepKept(t: Table)
      ensures TableStep(env, t, t)
    {
    }

    method UpdateRecord(f: FileState) returns (status: Return)
      requires Inv() && MayWriteIf(f, true, true) && Permitted(f) && (!env.cfg.dryRun ==> active && db.open)
      modifies this`interrupted, db
      ensures Inv() && Signalled() && old(db.log) <= db.log
      ensures Quiet(status.failure)
      ensures status == Normalize(SUCCESS, interrupted) || status == Normalize(FAILURE, interrupted)
      ensures env.cfg.dryRun ==> status.success && db.log == old(db.log) && db.view == old(db.view)
      ensures status.success ==> db.epoch == old(db.epoch)
      ensures status.success && !env.cfg.dryRun ==>
                db.open && db.view == old(db.view)[f.id := f.AsRow()]
      ensures db.durable == old(db.durable) && (db.open ==> old(db.open))
    {
      hide MayWriteIf, Permitted, TableStep, TableSound, Guarded, Intact, TurnProper, InTurn, LogOK, SealsProper,
           UniquePaths, Noted;
      if env.cfg.dryRun {
        status := Provide(SUCCESS);
        return;
      }
      ghost var before := db.log;
      WriteAllowed(f, true, f.id);
      var ok := db.Update(f.id, f.AsRow());
      if db.log != before {
        LogGrow(env, before, db.log[|before|]);
      }
      status := Provide(if ok then SUCCESS else FAILURE);
    }

    method InsertRecord(f: FileState) returns (status: Return, id: RowId)
      requires Inv() && MayWriteIf(f, false, true) && Permitted(f) && (!env.cfg.dryRun ==> active && db.open)
      modifies this`interrupted, db
      ensures Inv() && Signalled() && old(db.log) <= db.log
      ensures Quiet(status.failure)
      ensures status == Normalize(SUCCESS, interrupted) || status == Normalize(FAILURE, interrupted)
      ensures env.cfg.dryRun ==> status.success && db.log == old(db.log) && db.view == old(db.view)
      ensures status.success ==> db.epoch == old(db.epoch)
      ensures status.success && !env.cfg.dryRun ==>
                db.open && id !in old(db.view) && db.view == old(db.view)[id := f.AsRow()]
      ensures db.durable == old(db.durable) && (db.open ==> old(db.open))
    {
      hide MayWriteIf, Permitted, TableStep, TableSound, Guarded, Intact, TurnProper, InTurn, LogOK, SealsProper,
           UniquePaths, Noted;
      id := 0;
      if env.cfg.dryRun {
        status := Provide(SUCCESS);
        return;
      }
      NewPath(f);
      ghost var before := db.log;
      forall k | k !in db.view {
        WriteAllowed(f, false, k);
      }
      var ok;
      ok, id := db.Insert(f.AsRow());
      if db.log != before {
        LogGrow(env, before, db.log[|before|]);
      }
      status := Provide(if ok then SUCCESS else FAILURE);
    }

    /** The write of `Save`, once the batch is open. */
    method Store(f: FileState, known: bool) returns (status: Return, known': bool)
      requires Inv() && MayWriteIf(f, known, true) && Permitted(f) && (!env.cfg.dryRun ==> active && db.open)
      modifies this`interrupted, db, f`id
      ensures Inv() && Signalled() && old(db.log) <= db.log
      ensures Quiet(status.failure)
      ensures status == Normalize(SUCCESS, interrupted) || status == Normalize(FAILURE, interrupted)
      ensures env.cfg.dryRun ==> status.success && db.log == old(db.log) && known' == known && f.id == old(f.id)
      ensures status.success ==> db.epoch == old(db.epoch)
      ensures status.success && !env.cfg.dryRun ==>
                && db.open && known'
                && db.view == old(db.view)[f.id := f.AsRow()]
                && (known ==> f.id == old(f.id))
                && (!known ==> f.id !in old(db.view))
      ensures !status.success ==> known' == known && f.id == old(f.id)
      ensures db.durable == old(db.durable)
    {
      hide Inv, Noted, Entries, Position, Unread, Troubled, MayWriteIf, Permitted;
      known' := known;
      if known {
        status := UpdateRecord(f);
      } else {
        var id;
        status, id := InsertRecord(f);
        if status.success && !env.cfg.dryRun {
          f.id := id;
          known' := true;
        }
      }
    }

    lemma MayWriteNow(f: FileState, known: bool)
      requires MayWrite(f, known) && (env.cfg.dryRun || Healthy())
      ensures MayWriteIf(f, known, true)
    {
    }

    /** Join or begin the batch, then write the row. */
    method SaveRow(f: FileState, known: bool) returns (status: Return, known': bool)
      requires Inv() && MayWrite(f, known) && Permitted(f)
      modifies this`active, this`startedNs, this`now, this`interrupted, this`readings, db, f`id
      ensures Inv() && old(now) <= now && Signalled() && old(db.log) <= db.log
      ensures Quiet(status.failure)
      ensures Calm(status) || Failed(status)
      ensures env.cfg.dryRun ==>
                db.log == old(db.log) && db.epoch == old(db.epoch) && known' == known && f.id == old(f.id)
      ensures status.success && !env.cfg.dryRun ==>
                && active && db.open && known' && old(Healthy()) && db.epoch == old(db.epoch)
                && db.view == old(db.view)[f.id := f.AsRow()]
                && (known ==> f.id == old(f.id))
                && (!known ==> f.id !in old(db.view))
      ensures old(active) ==> active && startedNs == old(startedNs)
      ensures !old(active) && active ==> old(now) <= startedNs
      ensures !status.success ==> known' == known && f.id == old(f.id)
      ensures db.durable == old(db.durable)
    {
      hide Inv, Noted, Entries, Position, Unread, Troubled, MayWrite, MayWriteIf, Permitted, HasPath, Encode;
      known' := known;
      if env.cfg.dryRun || Healthy() {
        MayWriteNow(f, known);
      }
      status := TransactionBegin();
      if !status.failure {
        status, known' := Store(f, known);
      }
    }

    method Save(f: FileState, known: bool, visible: bool) returns (status: Return, known': bool)
      requires Inv() && MayWrite(f, known) && Permitted(f)
      modifies this`active, this`startedNs, this`now, this`interrupted, this`readings, db, f`id,
               f`inserted, f`updated
      ensures Inv() && old(now) <= now && Signalled() && old(db.log) <= db.log
      ensures Quiet(status.failure)
      ensures Calm(status) || Failed(status)
      ensures env.cfg.dryRun ==>
                db.log == old(db.log) && db.epoch == old(db.epoch) && known' == known && f.id == old(f.id)
      // A save that succeeds is one row in the batch, and it never moves the start of the batch.
      ensures status.success && !env.cfg.dryRun ==>
                && active && db.open && known' && old(Healthy()) && db.epoch == old(db.epoch)
                && db.view == old(db.view)[f.id := f.AsRow()]
                && (known ==> f.id == old(f.id))
                && (!known ==> f.id !in old(db.view))
      ensures old(active) ==> active && startedNs == old(startedNs)
      ensures !old(active) && active ==> old(now) <= startedNs
      ensures !status.success ==> known' == known && f.id == old(f.id)
      ensures db.durable == old(db.durable)
      // The report distinguishes the first appearance of the path from a change of its row.
      ensures status.success && visible ==>
                if f.saved.wasInDb then f.updated && f.inserted == old(f.inserted)
                else f.inserted && f.updated == old(f.updated)
      ensures !status.success || !visible ==> f.updated == old(f.updated) && f.inserted == old(f.inserted)
    {
      hide Inv, Noted, Entries, Position, Unread, Troubled, MayWrite, MayWriteIf, Permitted, HasPath, Encode;
      known' := known;
      if env.cfg.dryRun && !visible {
        status := Provide(SUCCESS);
        return;
      }
      var existed := f.saved.wasInDb;
      status, known' := SaveRow(f, known);
      if status.success && visible {
        if existed {
          f.updated := true;
        } else {
          f.inserted := true;
        }
      }
      status := Provide(status);
    }

    // ----- Hashing one file -----

    /** `stored` is the row loaded for the file, or the row written by its own last checkpoint. */
    ghost predicate Tracks(f: FileState, known: bool, reach: nat)
      reads this`active, db`open, db`view, f`saved, f`id, f`locked
    {
      && (f.saved.wasInDb ==> known)
      && (Healthy() ==>
            && (!known ==> !HasPath(db.view, f.path))
            && (known ==>
                  && f.id in db.view && db.view[f.id].path == f.path
                  && var r := db.view[f.id];
                     || f.saved == Decode(r)
                     || (!IsSealed(f) && r.stat == f.stat && r.offset.Some? && r.offset.value <= reach)))
    }

    /** What a hashing pass leaves alone, whatever happens. A sealed row is not written. */
    twostate predicate Kept(f: FileState, known: bool, known': bool)
      reads this`active, this`turn, this`journal, this`readings, db`open, db`log, db`view, db`durable,
          f`id, f`inserted, f`updated, f`saved, f`locked, f`readError
    {
      && old(db.log) <= db.log && Onward()
      && (f.readError && !old(f.readError) ==> Troubled(journal, f.path))
      && (env.cfg.dryRun ==> db.log == old(db.log))
      && (known ==> known' && f.id == old(f.id))
      && f.inserted == old(f.inserted) && f.updated == old(f.updated)
      && (IsSealed(f) ==> NoWrite(old(db.durable), old(db.view)))
    }

    /** What every stage of a hashing pass leaves alone. A stage that succeeds on an intact batch has not
        touched the row of a sealed file at all. */
    twostate predicate Continues(f: FileState, known: bool, known': bool, ok: bool)
      reads this`active, this`now, this`interrupted, this`turn, this`journal, this`readings, db`open,
          db`log, db`view, db`durable
      reads f`id, f`inserted, f`updated, f`saved, f`locked, f`readError
    {
      && old(now) <= now && Signalled() && Kept(f, known, known')
      && (!ok ==> MayFail(env))
      && (IsSealed(f) && ok && Healthy() ==> db.view == old(db.view))
    }

    /** A locked file whose row was complete when it was loaded. */
    predicate IsSealed(f: FileState)
      reads f`saved, f`locked
    {
      f.locked && f.saved.wasInDb && f.saved.offset == 0
    }

    /** An unchanged row is hashed again only by --rehash-locked, and resumed from its own offset. */
    ghost predicate Hashable(f: FileState)
      reads this`turn, f`saved, f`locked, f`offset
    {
      && f.path in turn.current
      && f.path in env.stats && env.stats[f.path] == f.stat
      && f.locked == Locked(env, f.path) && (f.path in env.seals ==> IsSealed(f))
      && (f.saved.wasInDb && Identical(f.saved.stat, f.stat) ==>
            if f.saved.offset == 0 then f.locked && env.cfg.rehashLocked else f.offset >= f.saved.offset)
    }

    /** The context has absorbed exactly the bytes before the offset. */
    ghost predicate Absorbed(f: FileState, v: Visit)
      reads f`offset, f`ctx
    {
      f.offset <= |v.content| && f.ctx == ContextOf(env.world.comp, v.content[..f.offset])
    }

    /** `fread`: a positive number of bytes, or nothing at the end of the file or after an error. */
    method Fread(v: Visit, pos: nat) returns (block: seq<Byte>, error: bool)
      requires Recorded() && Idle(journal) && v.path in turn.taken
      modifies this`journal
      ensures Recorded()
      ensures block != [] ==> journal == old(journal) + [Block(v.path, pos + |block|, |readings|)]
      ensures block == [] ==> journal == if error then old(journal) + [Trouble(v.path)] else old(journal)
      ensures |block| <= FILE_READ_BUFFER_SIZE
      ensures block != [] ==> pos + |block| <= |v.content| && block == v.content[pos..pos + |block|]
      ensures Idle(journal) == (block == []) && Entries(journal) == Entries(old(journal))
      ensures Position(journal, v.path) == if block != [] then pos + |block| else Position(old(journal), v.path)
      ensures error ==> Troubled(journal, v.path)
      ensures error ==> block == []
      ensures block == [] && !error ==> |v.content| <= pos
    {
      hide Noted, Position, Entries, Troubled;
      block := [];
      error := *;
      error := error && env.fate.faults;
      if error {
        Note(Trouble(v.path));
        return;
      }
      if |v.content| <= pos {
        return;
      }
      var n: int := *;
      if n < 1 || FILE_READ_BUFFER_SIZE < n || |v.content| - pos < n {
        n := 1;
      }
      block := v.content[pos..pos + n];
      Note(Block(v.path, pos + n, |readings|));
    }

    /** `periodic_hash_checkpoint_is_allowed`. */
    predicate CheckpointAllowed(f: FileState)
      reads f`saved, f`locked, f`offset
    {
      !env.cfg.dryRun && f.offset > 0 && !IsSealed(f)
    }

    lemma MayCheckpoint(f: FileState, v: Visit, known: bool)
      requires Tracks(f, known, f.offset) && Hashable(f) && CheckpointAllowed(f)
      requires f.path == v.path && (f.path !in env.world.exempt ==> Coherent(env, v) && Absorbed(f, v))
      ensures MayWrite(f, known) && Permitted(f)
    {
      hide ContextOf;
      assert f.path !in env.seals;
    }

    /** Save the partial row of the file and make the batch durable. */
    method Checkpoint(f: FileState, v: Visit, known: bool) returns (status: Return, known': bool)
      requires Inv() && Tracks(f, known, f.offset) && Hashable(f)
      requires f.offset > 0 && f.path == v.path && (f.path !in env.world.exempt ==> Coherent(env, v) && Absorbed(f, v))
      modifies this`active, this`startedNs, this`now, this`interrupted, this`readings, db, f`id,
               f`inserted, f`updated
      ensures Inv() && old(now) <= now && Signalled() && old(db.log) <= db.log
      ensures Quiet(status.failure)
      ensures status == Normalize(SUCCESS, interrupted) || Failed(status)
      ensures env.cfg.dryRun ==> db.log == old(db.log)
      ensures known ==> known' && f.id == old(f.id)
      ensures f.inserted == old(f.inserted) && f.updated == old(f.updated)
      ensures status.success ==> !active && Tracks(f, known', f.offset) && old(Healthy()) && db.epoch == old(db.epoch)
      ensures status.success && !CheckpointAllowed(f) ==> known' == known && db.view == old(db.view)
      ensures status.success && CheckpointAllowed(f) ==>
                known' && f.id in db.durable && db.durable[f.id] == f.AsRow()
      ensures IsSealed(f) ==> NoWrite(old(db.durable), old(db.view))
    {
      hide Inv, Noted, Entries, Position, Unread, Troubled, ContextOf, Coherent, Absorbed, Hashable, MayWrite,
           Permitted, RowSound;
      status, known' := SUCCESS, known;
      if CheckpointAllowed(f) {
        MayCheckpoint(f, v, known);
        status, known' := Save(f, known, false);
        if status.failure {
          return;
        }
      }
      var r := TransactionCommit();
      status := Merged(status, r);
    }

    /** The durable part of a partly hashed file. */
    ghost function SavedOffset(f: FileState): nat
      reads db`durable, f`id
    {
      if f.id in db.durable && db.durable[f.id].path == f.path && db.durable[f.id].stat == f.stat
         && db.durable[f.id].offset.Some?
      then db.durable[f.id].offset.value
      else 0
    }

    /** The point from which a crash would resume is durable, and the looks of the pass agree with it. */
    ghost predicate OnSchedule(f: FileState, known: bool, start: nat, mark: Mark)
      reads this`journal, this`now, db`durable, f`saved, f`id, f`locked, f`offset
    {
      && mark.safeNs <= now && Paced(journal, f.path, start, f.offset, mark.safeNs, mark.safeOffset)
      && SafeAt(f, known, start, mark)
    }

    ghost predicate SafeAt(f: FileState, known: bool, start: nat, mark: Mark)
      reads db`durable, f`saved, f`id, f`locked
    {
      mark.safeOffset > start && !env.cfg.dryRun && !IsSealed(f) ==> known && SavedOffset(f) == mark.safeOffset
    }

    /** The journal shows the pass at its offset, with nothing left to look at. */
    ghost predicate OnCourse(f: FileState, start: nat)
      reads this`journal, f`offset
    {
      Idle(journal) && Position(journal, f.path) == if f.offset > start then f.offset else 0
    }

    /** A file of which something, but not all, has been read is at the position reached. */
    ghost predicate AtPosition(f: FileState, v: Visit, start: nat)
      reads this`journal, f`offset
    {
      0 < Position(journal, f.path) < |v.content| ==> f.offset == Position(journal, f.path) > start
    }

    /** Nothing of the file has been read, and nothing is left to look at. */
    ghost predicate Rested(p: Path)
      reads this`active, db`open, this`turn, this`journal, this`readings
    {
      Recorded() && Idle(journal) && Unread(journal, p)
    }

    lemma RestedFacts(f: FileState, v: Visit)
      requires Rested(f.path)
      ensures Recorded() && Idle(journal) && AtPosition(f, v, f.offset)
    {
      NothingRead(journal, f.path);
    }

    ghost predicate InPass(f: FileState, v: Visit, known: bool, start: nat, mark: Mark)
      reads this`active, this`startedNs, this`now, this`broken, this`turn, db, f
      reads this`journal, this`readings
    {
      && Inv() && Tracks(f, known, f.offset) && Hashable(f) && Coherent(env, v)
      && f.path == v.path && f.stat == v.stat && !f.readError && !f.wrongType
      && start <= f.offset && Recorded()
      && (start == 0 || f.path !in env.world.exempt ==> Absorbed(f, v))
      && OnSchedule(f, known, start, mark) && OnCourse(f, start)
    }

    /** The hash refuses only files beyond its bit counter, or a context that is not to be relied on. */
    lemma AcceptedUnlessLarge(f: FileState, v: Visit, more: nat)
      requires Coherent(env, v) && f.offset + more <= |v.content| && (v.path !in env.world.exempt ==> Absorbed(f, v))
      ensures Accepts(f.ctx, more) || MayFail(env)
    {
      if Manageable(env) {
        AcceptsContextOf(env.world.comp, v.content[..f.offset], more);
      }
    }

    /** `sha512_update` on one block read at the current offset. */
    method AbsorbBlock(f: FileState, v: Visit, ghost known: bool, block: seq<Byte>) returns (ok: bool)
      requires f.offset + |block| <= |v.content| && block == v.content[f.offset..f.offset + |block|]
      modifies f`offset, f`ctx
      ensures ok == Accepts(old(f.ctx), |block|)
      ensures ok ==> f.offset == old(f.offset) + |block| && (old(Absorbed(f, v)) ==> Absorbed(f, v))
      ensures ok && old(Hashable(f)) ==> Hashable(f)
      ensures ok && old(Tracks(f, known, f.offset)) ==> Tracks(f, known, f.offset)
    {
      ghost var m := v.content[..f.offset];
      var ctx;
      ok, ctx := Update(env.world.comp, f.ctx, block, m);
      if ok {
        assert m + block == v.content[..f.offset + |block|];
        f.ctx := ctx;
        f.offset := f.offset + |block|;
      }
    }

    /** What a look at the deadlines of the file finds. */
    ghost function LookAt(f: FileState, ns: int): Event
      reads this`active, this`startedNs, db`durable, f`id, f`saved, f`locked, f`offset
    {
      Look(f.path, f.offset, ns, active, startedNs, SavedOffset(f), CheckpointAllowed(f))
    }

    /** A checkpoint has been taken: everything hashed so far is durable. */
    lemma SafeNow(f: FileState, start: nat, mark: Mark, ns: int)
      requires Paced(journal, f.path, start, f.offset, mark.safeNs, mark.safeOffset) && f.offset > start
      requires CheckpointAllowed(f) ==> f.id in db.durable && db.durable[f.id] == f.AsRow()
      ensures InTime(journal, LookAt(f, ns)) && Paced(journal + [LookAt(f, ns)], f.path, start, f.offset, ns, f.offset)
      ensures CheckpointAllowed(f) ==> SavedOffset(f) == f.offset
    {
      PacedCheckpoint(journal, start, f.offset, mark.safeNs, mark.safeOffset, LookAt(f, ns));
    }

    /** No checkpoint is due. */
    lemma StillSafe(f: FileState, known: bool, start: nat, mark: Mark, ns: int)
      requires OnSchedule(f, known, start, mark) && f.offset > start
      requires mark.safeNs <= ns < mark.safeNs + DB_CHECKPOINT_INTERVAL_NS
      ensures InTime(journal, LookAt(f, ns))
      ensures Paced(journal + [LookAt(f, ns)], f.path, start, f.offset, mark.safeNs, mark.safeOffset)
    {
      PacedLook(journal, start, f.offset, mark.safeNs, mark.safeOffset, LookAt(f, ns));
    }

    /** Checkpoint when the pass or the batch has reached its deadline. */
    method MeetDeadline(
        f: FileState, v: Visit, known: bool, nextNs: int, nowNs: int, ghost start: nat, ghost mark: Mark)
      returns (status: Return, known': bool, nextNs': int, ghost mark': Mark)
      requires Inv() && Recorded() && Tracks(f, known, f.offset) && Hashable(f) && Coherent(env, v)
      requires f.path == v.path && f.stat == v.stat && start < f.offset && nowNs == now
      requires OnSchedule(f, known, start, mark) && nextNs == mark.safeNs + DB_CHECKPOINT_INTERVAL_NS
      requires start == 0 || f.path !in env.world.exempt ==> Absorbed(f, v)
      modifies this`active, this`startedNs, this`now, this`interrupted, this`readings
      modifies db, f`id, f`inserted, f`updated
      ensures Inv()
      ensures Calm(status) || Failed(status)
      ensures Continues(f, known, known', status.success)
      ensures status.success ==>
                Tracks(f, known', f.offset) && (Healthy() ==> old(Healthy()) && db.epoch == old(db.epoch))
      ensures old(readings) <= readings
      ensures status.success ==> InTime(journal, LookAt(f, nowNs))
      ensures status.success ==> (active ==> nowNs - startedNs < DB_CHECKPOINT_INTERVAL_NS)
      ensures status.success ==>
                && nextNs' == mark'.safeNs + DB_CHECKPOINT_INTERVAL_NS && mark'.safeNs <= nowNs
                && SafeAt(f, known', start, mark')
                && Paced(journal + [LookAt(f, nowNs)], f.path, start, f.offset, mark'.safeNs, mark'.safeOffset)
    {
      hide MayFail, Inv, Noted, Position, Unread, Troubled, Tracks, Absorbed, Coherent, Paced, InTime, Entries,
           LookAt;
      status, known', nextNs', mark' := SUCCESS, known, nextNs, mark;
      if nowNs >= nextNs || (active && nowNs - startedNs >= DB_CHECKPOINT_INTERVAL_NS) {
        status, known' := Checkpoint(f, v, known);
        if status.failure {
          return;
        }
        nextNs' := nowNs + DB_CHECKPOINT_INTERVAL_NS;
        mark' := Mark(nowNs, f.offset);
        SafeNow(f, start, mark, nowNs);
      } else {
        StillSafe(f, known', start, mark, nowNs);
      }
    }

    /** After a block: look at the deadlines. */
    method CheckDeadline(f: FileState, v: Visit, known: bool, nextNs: int, ghost start: nat, ghost mark: Mark)
      returns (status: Return, known': bool, nextNs': int, ghost mark': Mark)
      requires Inv() && Tracks(f, known, f.offset) && Hashable(f) && Coherent(env, v)
      requires f.path == v.path && f.stat == v.stat && start < f.offset
      requires OnSchedule(f, known, start, mark) && nextNs == mark.safeNs + DB_CHECKPOINT_INTERVAL_NS
      requires Recorded() && Due(journal, f.path, f.offset, |readings|)
      requires start == 0 || f.path !in env.world.exempt ==> Absorbed(f, v)
      modifies this`active, this`startedNs, this`now, this`interrupted, this`journal, this`readings
      modifies db, f`id, f`inserted, f`updated
      ensures Inv()
      ensures Calm(status) || Failed(status)
      ensures Continues(f, known, known', status.success)
      ensures status.success ==>
                Tracks(f, known', f.offset) && (Healthy() ==> old(Healthy()) && db.epoch == old(db.epoch))
      ensures status.success ==> OnSchedule(f, known', start, mark') && Hashable(f)
      ensures status.success ==> nextNs' == mark'.safeNs + DB_CHECKPOINT_INTERVAL_NS
      // The look is on record: the batch is young, and what was hashed an interval ago is durable.
      ensures status.success ==> Idle(journal)
      ensures Position(journal, f.path) == old(Position(journal, f.path))
    {
      hide MayFail, Hashable, Inv, Noted, Recorded, Unread, Tracks, Absorbed, Coherent, Paced, InTime, Entries,
           Position, Troubled, SavedOffset, IsSealed, NoWrite;
      TurnHolds(f);
      var nowNs := Clock();
      status, known', nextNs', mark' := MeetDeadline(f, v, known, nextNs, nowNs, start, mark);
      if status.success {
        NoteLook(LookAt(f, nowNs));
      }
    }

    /** Read a block at the current offset and absorb it. */
    method ReadBlock(f: FileState, v: Visit, ghost known: bool, ghost start: nat, ghost mark: Mark)
      returns (status: Return, got: bool)
      requires InPass(f, v, known, start, mark)
      modifies this`journal, f`offset, f`ctx, f`readError
      ensures Onward() && (f.readError ==> Troubled(journal, f.path))
      ensures status == SUCCESS || (status == FAILURE && MayFail(env) && !got)
      ensures got ==>
                && !f.readError && old(f.offset) < f.offset <= |v.content| && Hashable(f)
                && OnSchedule(f, known, start, mark)
                && Due(journal, f.path, f.offset, |readings|) && Position(journal, f.path) == f.offset
      ensures !got && status == SUCCESS ==>
                && f.offset == old(f.offset) && OnCourse(f, start) && (f.readError || |v.content| <= f.offset)
      ensures status == SUCCESS ==> Tracks(f, known, f.offset)
      ensures status == SUCCESS && (start == 0 || f.path !in env.world.exempt) ==> Absorbed(f, v)
    {
      hide Inv, Noted, Unread, Position, Troubled, Entries, Tracks, Hashable, Absorbed, IsSealed, ContextOf,
           RowSound, Paced;
      TurnHolds(f);
      status, got := SUCCESS, false;
      ghost var was, at := journal, |readings|;
      var block, error := Fread(v, f.offset);
      if block == [] {
        if error {
          f.readError := true;
        }
        return;
      }
      PacedBlock(was, start, f.offset, mark.safeNs, mark.safeOffset, Block(v.path, f.offset + |block|, at));
      AcceptedUnlessLarge(f, v, |block|);
      got := AbsorbBlock(f, v, known, block);
      if !got {
        status := FAILURE;
      }
    }

    /** One turn of the read loop: unless interrupted, read a block, absorb it and look at the deadlines. */
    method HashStep(f: FileState, v: Visit, known: bool, nextNs: int, ghost start: nat, ghost mark: Mark)
      returns (status: Return, known': bool, nextNs': int, more: bool, stopped: bool, ghost mark': Mark)
      requires InPass(f, v, known, start, mark) && nextNs == mark.safeNs + DB_CHECKPOINT_INTERVAL_NS
      modifies this`active, this`startedNs, this`now, this`interrupted, this`journal, this`readings, db
      modifies f`id, f`inserted, f`updated, f`offset, f`ctx, f`readError
      ensures Inv()
      ensures Calm(status) || Failed(status)
      ensures Continues(f, known, known', status.success)
      ensures status.success ==>
                Tracks(f, known', f.offset) && (Healthy() ==> old(Healthy()) && db.epoch == old(db.epoch))
      ensures status.success ==> OnCourse(f, start) && old(f.offset) <= f.offset
      ensures status.success && (start == 0 || f.path !in env.world.exempt) ==> Absorbed(f, v)
      ensures status.success && more ==>
                && InPass(f, v, known', start, mark') && nextNs' == mark'.safeNs + DB_CHECKPOINT_INTERVAL_NS
                && old(f.offset) < f.offset <= |v.content|
      ensures stopped ==> interrupted && !more && status == SUCCESS && !f.readError
      ensures if more then status.success
              else status.failure || (status == SUCCESS && (stopped || f.readError || |v.content| <= f.offset))
    {
      hide MayFail, Inv, Noted, Unread, Idle, Position, Troubled, Entries, Tracks, Hashable, Absorbed, IsSealed,
           ContextOf, RowSound, Paced;
      status, known', nextNs', mark', more, stopped := SUCCESS, known, nextNs, mark, false, false;
      Poll();
      if interrupted {
        stopped := true;
        return;
      }
      var got;
      status, got := ReadBlock(f, v, known, start, mark);
      if !got {
        return;
      }
      status, known', nextNs', mark' := CheckDeadline(f, v, known, nextNs, start, mark);
      more := !status.failure;
    }

    lemma TurnHolds(f: FileState)
      requires Inv() && Hashable(f)
      ensures f.path in turn.taken
    {
    }

    lemma PassFacts(f: FileState, v: Visit, known: bool, start: nat, mark: Mark)
      requires InPass(f, v, known, start, mark)
      ensures Inv() && Recorded() && Tracks(f, known, f.offset) && OnCourse(f, start)
      ensures start <= f.offset && !f.readError
      ensures start == 0 || f.path !in env.world.exempt ==> Absorbed(f, v)
    {
    }

    /** The read loop. It ends at the end of the file, on a read error, on an interruption or on a failure. */
    method ReadLoop(f: FileState, v: Visit, known: bool, nextNs0: int, ghost start: nat, ghost mark0: Mark)
      returns (status: Return, known': bool, loopInterrupted: bool)
      requires InPass(f, v, known, start, mark0) && nextNs0 == mark0.safeNs + DB_CHECKPOINT_INTERVAL_NS
      modifies this`active, this`startedNs, this`now, this`interrupted, this`journal, this`readings, db
      modifies f`id, f`inserted, f`updated, f`offset, f`ctx, f`readError
      ensures Inv()
      ensures Calm(status) || Failed(status)
      ensures Continues(f, known, known', status.success)
      ensures status.success ==>
                Tracks(f, known', f.offset) && (Healthy() ==> old(Healthy()) && db.epoch == old(db.epoch))
      ensures status.success ==> OnCourse(f, start) && start <= f.offset
      ensures status.success && (start == 0 || f.path !in env.world.exempt) ==> Absorbed(f, v)
      ensures loopInterrupted ==> interrupted && !f.readError
      ensures status.success && status.halted ==> loopInterrupted
      ensures status.success && !loopInterrupted && !f.readError ==> |v.content| <= f.offset
    {
      hide MayFail, Inv, Noted, Entries, Position, Unread, Troubled, Tracks, Absorbed, InPass, IsSealed, Coherent,
           Hashable, ContextOf, RowSound, OnCourse;
      PassFacts(f, v, known, start, mark0);
      status, known', loopInterrupted := SUCCESS, known, false;
      var nextNs, more := nextNs0, true;
      ghost var mark := mark0;
      while more
        invariant Continues(f, known, known', status.success)
        invariant Inv() && (Calm(status) || Failed(status))
        invariant status.success ==>
                    Tracks(f, known', f.offset) && (Healthy() ==> old(Healthy()) && db.epoch == old(db.epoch))
        invariant status.success ==> OnCourse(f, start) && start <= f.offset
        invariant status.success && (start == 0 || f.path !in env.world.exempt) ==> Absorbed(f, v)
        invariant loopInterrupted ==> interrupted && !more && status == SUCCESS && !f.readError
        invariant more ==> status.success && InPass(f, v, known', start, mark) && !f.readError
        invariant more ==> nextNs == mark.safeNs + DB_CHECKPOINT_INTERVAL_NS
        invariant !more ==>
                    Failed(status) || (status == SUCCESS && (loopInterrupted || f.readError || |v.content| <= f.offset))
        decreases more, |v.content| - f.offset
      {
        status, known', nextNs, more, loopInterrupted, mark := HashStep(f, v, known', nextNs, start, mark);
        if more {
          PassFacts(f, v, known', start, mark);
        }
      }
    }

    /** Start the checkpoint clock, then read. */
    method HashLoop(f: FileState, v: Visit, known: bool) returns (status: Return, known': bool, loopInterrupted: bool)
      requires InPass(f, v, known, f.offset, Mark(now, f.offset))
      modifies this`active, this`startedNs, this`now, this`interrupted, this`journal, this`readings, db
      modifies f`id, f`inserted, f`updated, f`offset, f`ctx, f`readError
      ensures Inv()
      ensures Calm(status) || Failed(status)
      ensures Continues(f, known, known', status.success)
      ensures status.success ==>
                Tracks(f, known', f.offset) && (Healthy() ==> old(Healthy()) && db.epoch == old(db.epoch))
      ensures status.success ==> OnCourse(f, old(f.offset)) && old(f.offset) <= f.offset
      ensures status.success && (old(f.offset) == 0 || f.path !in env.world.exempt) ==> Absorbed(f, v)
      ensures loopInterrupted ==> interrupted && !f.readError
      ensures status.success && status.halted ==> loopInterrupted
      ensures status.success && !loopInterrupted && !f.readError ==> |v.content| <= f.offset
    {
      hide MayFail, Inv, Noted, Entries, Position, Unread, Troubled, Coherent, Tracks, Hashable, Absorbed;
      ghost var start := f.offset;
      var startNs := Clock();
      status, known', loopInterrupted :=
        ReadLoop(f, v, known, startNs + DB_CHECKPOINT_INTERVAL_NS, start, Mark(startNs, start));
    }

    /** What a pass that did not fail has found out about the content. */
    ghost predicate Outcome(f: FileState, v: Visit, start: nat, reach: nat)
      reads this`interrupted, f`offset, f`ctx, f`digest, f`readError, f`wrongType
    {
      && (v.seekable ==> !f.wrongType) && (!v.seekable && !f.readError ==> f.wrongType)
      && (Hashing(env) && !f.readError && !f.wrongType ==>
            // An offset that remains is an interruption after exactly that many bytes;
            && (f.offset > 0 ==>
                  && interrupted && reach == f.offset && start <= f.offset
                  && (start == 0 || f.path !in env.world.exempt ==> Absorbed(f, v)))
            // otherwise the digest is the one-shot digest of the whole file.
            && (f.offset == 0 && !interrupted && (start == 0 || f.path !in env.world.exempt) ==>
                  f.digest == DigestOf(env.world.comp, v.content)))
      && (!Hashing(env) || f.wrongType ==> f.offset == start == reach)
    }

    /** After the last byte: the offset is cleared and the context finalised. */
    method FinishDigest(f: FileState, v: Visit) returns (ok: bool)
      modifies f`offset, f`digest
      ensures f.offset == 0 && ok == Accepts(f.ctx, 0)
      ensures ok && old(Absorbed(f, v)) && |v.content| <= old(f.offset) ==>
                f.digest == DigestOf(env.world.comp, v.content)
    {
      assert Absorbed(f, v) && |v.content| <= f.offset ==> v.content[..f.offset] == v.content;
      f.offset := 0;
      var digest;
      ok, digest := Final(env.world.comp, f.ctx, v.content);
      if ok {
        f.digest := digest;
      }
    }

    /** A pass begins with nothing read. */
    lemma PassBegins(f: FileState, known: bool)
      requires Rested(f.path)
      ensures OnSchedule(f, known, f.offset, Mark(now, f.offset)) && OnCourse(f, f.offset)
      ensures Position(journal, f.path) == 0
    {
      PacedAtFirst(journal, f.path, f.offset, now);
    }

    lemma AcceptedAtEnd(f: FileState, v: Visit, start: nat)
      requires Coherent(env, v) && (start == 0 || v.path !in env.world.exempt ==> Absorbed(f, v))
      ensures Accepts(f.ctx, 0) || MayFail(env)
    {
      if v.path !in env.world.exempt {
        AcceptedUnlessLarge(f, v, 0);
      }
    }

    /** The read loop, and the digest when it reached the end. */
    method HashContent(f: FileState, v: Visit, known: bool)
      returns (status: Return, known': bool, ghost reach: nat)
      requires InPass(f, v, known, f.offset, Mark(now, f.offset)) && Hashing(env) && v.seekable
      modifies this`active, this`startedNs, this`now, this`interrupted, this`journal, this`readings, db
      modifies f`id, f`inserted, f`updated, f`offset, f`ctx, f`digest, f`readError
      ensures Inv()
      ensures Calm(status) || Failed(status)
      ensures Continues(f, known, known', status.success)
      ensures status.success ==> Tracks(f, known', reach) && (Healthy() ==> old(Healthy()) && db.epoch == old(db.epoch))
      ensures status.success ==> Outcome(f, v, old(f.offset), reach)
      ensures status.success ==> Idle(journal) && (f.readError || AtPosition(f, v, old(f.offset)))
    {
      hide MayFail, Inv, Noted, Entries, Position, Unread, Troubled, Hashable, Tracks, Coherent, Absorbed, DigestOf;
      ghost var start := f.offset;
      var loopInterrupted;
      status, known', loopInterrupted := HashLoop(f, v, known);
      reach := f.offset;
      if status == SUCCESS && !loopInterrupted {
        AcceptedAtEnd(f, v, start);
        var ok := FinishDigest(f, v);
        if !ok {
          status := FAILURE;
        }
      }
    }

    /** `openat` and `fdopen`. */
    method Fopen(p: Path) returns (found: bool)
      requires Recorded() && Idle(journal)
      modifies this`journal
      ensures Recorded() && Idle(journal) && old(journal) <= journal && Entries(journal) == Entries(old(journal))
      ensures found ==> journal == old(journal)
      ensures Position(journal, p) == Position(old(journal), p) && (!found ==> Troubled(journal, p))
    {
      hide Recorded, Noted, Position, Entries, Troubled;
      found := *;
      found := found || !env.fate.faults;
      if !found {
        Note(Trouble(p));
      }
    }

    /** From the opened file: seek, start or take over the context, and read. */
    method HashOpened(f: FileState, v: Visit, known: bool) returns (status: Return, known': bool, ghost reach: nat)
      requires Inv() && Tracks(f, known, f.offset) && Hashable(f) && Coherent(env, v)
      requires f.path == v.path && f.stat == v.stat && !f.readError && !f.wrongType
      requires f.offset == 0 || f.path in env.world.exempt || Absorbed(f, v)
      requires Rested(f.path)
      modifies this`active, this`startedNs, this`now, this`interrupted, this`journal, this`readings, db
      modifies f`id, f`inserted, f`updated, f`offset, f`ctx, f`digest, f`readError, f`wrongType
      ensures Inv()
      ensures Calm(status) || Failed(status)
      ensures Continues(f, known, known', status.success)
      ensures status.success ==> Tracks(f, known', reach) && (Healthy() ==> old(Healthy()) && db.epoch == old(db.epoch))
      ensures status.success ==> Outcome(f, v, old(f.offset), reach)
      ensures status.success ==> Idle(journal) && (f.readError || AtPosition(f, v, old(f.offset)))
      ensures !Hashing(env) ==> f.digest == old(f.digest)
    {
      hide MayFail, Inv, Noted, Recorded, Entries, Idle, Position, Unread, Troubled, Hashable, Tracks, OnSchedule;
      hide ContextOf, DigestOf;
      PassBegins(f, known);
      status, known', reach := SUCCESS, known, f.offset;
      if !v.seekable {
        f.wrongType := true;
        return;
      }
      if f.offset == 0 {
        f.ctx := Init(env.world.comp);
        assert v.content[..0] == [];
      }
      if Hashing(env) {
        status, known', reach := HashContent(f, v, known);
      }
    }

    method Sha512Sum(f: FileState, v: Visit, known: bool)
      returns (status: Return, known': bool, ghost reach: nat)
      requires Inv() && Tracks(f, known, f.offset) && Hashable(f) && Coherent(env, v)
      requires f.path == v.path && f.stat == v.stat && !f.readError && !f.wrongType
      requires f.offset == 0 || f.path in env.world.exempt || Absorbed(f, v)
      requires Rested(f.path)
      modifies this`active, this`startedNs, this`now, this`interrupted, this`journal, this`readings, db
      modifies f`id, f`inserted, f`updated, f`offset, f`ctx, f`digest, f`readError, f`wrongType
      ensures Inv()
      ensures status == Normalize(SUCCESS, interrupted) || Failed(status)
      ensures Continues(f, known, known', status.success)
      ensures status.success ==> Tracks(f, known', reach) && (Healthy() ==> old(Healthy()) && db.epoch == old(db.epoch))
      ensures status.success ==> Outcome(f, v, old(f.offset), reach)
      ensures status.success ==> Idle(journal) && (f.readError || AtPosition(f, v, old(f.offset)))
      ensures !Hashing(env) ==> f.digest == old(f.digest)
    {
      hide MayFail, Inv, Noted, Recorded, Entries, Idle, Position, Unread, Troubled, Hashable, Tracks, Absorbed;
      hide AtPosition, DigestOf;
      status, known', reach := SUCCESS, known, f.offset;
      var found := Fopen(f.path);
      if !found {
        f.readError := true;
        status := Provide(status);
        return;
      }
      status, known', reach := HashOpened(f, v, known);
      status := Provide(status);
    }

    // ----- One file -----

    /** What the loaded row says about the file is true. */
    predicate SavedSound(path: Path, saved: SavedRow) {
      var content := env.world.content(path, KeyOf(saved.stat));
      if saved.offset == 0 then
        saved.stat.size == 0 || saved.digest == DigestOf(env.world.comp, content)
      else
        saved.offset <= |content| && saved.ctx == ContextOf(env.world.comp, content[..saved.offset])
    }

    /** A sealed path was loaded with its sealed digest, and no other locked path with a complete row. */
    predicate SealRead(path: Path, saved: SavedRow) {
      if path in env.seals then
        && Locked(env, path) && path !in env.world.exempt && saved.wasInDb && saved.offset == 0
        && env.seals[path] == if saved.stat.size == 0 then None else Some(saved.digest)
      else
        Locked(env, path) && path !in env.world.exempt ==> !(saved.wasInDb && saved.offset == 0)
    }

    ghost predicate Loaded(f: FileState)
      reads db`view, f`saved, f`id
    {
      SealRead(f.path, f.saved) &&
      if f.saved.wasInDb then
        && f.id in db.view && db.view[f.id].path == f.path
        && f.saved == Decode(db.view[f.id])
        && (f.path !in env.world.exempt ==> SavedSound(f.path, f.saved))
      else
        f.saved == NO_ROW && !HasPath(db.view, f.path)
    }

    lemma ValidStore()
      requires Inv()
      ensures db.Valid() && db.faults == env.fate.faults
    {
    }

    lemma LoadedSound(id: RowId)
      requires Inv() && id in db.view && db.view[id].path !in env.world.exempt
      ensures SavedSound(db.view[id].path, Decode(db.view[id]))
    {
      hide DigestOf, ContextOf;
      var r := db.view[id];
      assert db.log[|db.log| - 1].view == db.view;
      SoundRow(env.world, db.view, id);
      assert RowSound(env.world, r);
    }

    /** The row of a sealed path is the one that was sealed; other locked paths are not complete yet. */
    lemma SealLoads(f: FileState)
      requires Inv() && !broken && f.path !in turn.taken
      requires if HasPath(db.view, f.path)
               then f.id in db.view && db.view[f.id].path == f.path && f.saved == Decode(db.view[f.id])
               else !f.saved.wasInDb
      ensures SealRead(f.path, f.saved)
    {
      assert db.log[|db.log| - 1].view == db.view;
      if f.path in env.seals {
        var id := SealAt(db.view, f.path, env.seals[f.path]);
        HasPathAt(db.view, id);
        SamePath(db.view, f.id, id);
        SoundRow(env.world, db.view, id);
      } else if HasPath(db.view, f.path) && f.path !in env.world.exempt {
        SoundRow(env.world, db.view, f.id);
      }
    }

    /** `db_read_file_data_from`. */
    method Load(f: FileState) returns (status: Return)
      requires Inv() && !broken && f.saved == NO_ROW && f.path !in turn.taken
      modifies this`interrupted, f`saved, f`id
      ensures Inv() && Signalled()
      ensures status == Normalize(SUCCESS, interrupted) || status == Normalize(FAILURE, interrupted)
      ensures Blames(status.failure)
      ensures status.success ==> Loaded(f)
    {
      hide Inv, Noted, Entries, Position, Unread, Troubled, SavedSound, RowSound, UniquePaths;
      ValidStore();
      var ok, id := db.Find(f.path);
      if !ok {
        status := Answer(false);
        return;
      }
      if id.Some? {
        if db.view[id.value].path !in env.world.exempt {
          LoadedSound(id.value);
        }
        f.id, f.saved := id.value, Decode(db.view[id.value]);
      }
      SealLoads(f);
      status := Provide(SUCCESS);
    }

    /** Lock, include, ignore and access checks. */
    method Classify(f: FileState, v: Visit) returns (status: Return, next: Next)
      requires f.path == v.path && !f.locked && !f.ignored && !f.unavailable
      modifies this`interrupted, f`locked, f`ignored, f`readable, f`unavailable
      ensures Blames(status.failure)
      ensures Signalled()
      ensures status == Normalize(SUCCESS, interrupted) || Failed(status)
      ensures next == Stop ==> status != SUCCESS && (status.failure || interrupted)
      ensures next == Skip ==>
                status == SUCCESS && f.unavailable && f.locked && Locked(env, f.path) &&
                f.saved.wasInDb && v.access != Allowed
      ensures next == Go ==>
                && status.success && !f.unavailable && f.locked == Locked(env, f.path)
                && f.ignored == (IsIgnored(env.cfg, f.path) == Some(true) && !f.locked)
                && f.readable == (!f.ignored && v.access == Allowed)
                && (f.saved.wasInDb && f.locked ==> v.access == Allowed)
    {
      hide Noted, IsIgnored;
      status, next := SUCCESS, Stop;
      var lock := env.cfg.locks(f.path);
      var r := Answer(lock != Broken);
      status := Merged(status, r);
      if lock == Hit {
        f.locked := true;
      }
      if status != SUCCESS {
        return;
      }
      var ignored := IsIgnored(env.cfg, f.path);
      status := Answer(ignored.Some?);
      f.ignored := ignored == Some(true);
      if status != SUCCESS {
        return;
      }
      if f.ignored && f.locked {
        f.ignored := false;
      }
      f.readable := false;
      if !f.ignored {
        if f.saved.wasInDb && f.locked && v.access != Allowed {
          status := Provide(SUCCESS);
          if status != SUCCESS {
            return;
          }
          f.unavailable := true;
          next := Skip;
          return;
        }
        f.readable := v.access == Allowed;
      }
      r := Provide(SUCCESS);
      status := Merged(status, r);
      next := Go;
    }

    /** The decision has been taken and the resume point, if there is one, restored. */
    ghost predicate Prepared(f: FileState, v: Visit, plan: Plan)
      reads this`turn, f`saved, f`locked, f`rehash, f`zeroSize, f`violation
    {
      && f.path in turn.current && Coherent(env, v) && f.path == v.path && f.stat == v.stat
      && f.locked == Locked(env, f.path)
      && plan == MakePlan(env.cfg, f.locked, f.saved, f.stat) && !plan.upToDate && !plan.driftOnly
      && f.rehash == plan.rehash && f.zeroSize == plan.zeroSize && f.violation == plan.violation
      && (f.saved.wasInDb && f.path !in env.world.exempt ==> SavedSound(f.path, f.saved))
      && (!f.saved.wasInDb ==> f.saved == NO_ROW) && SealRead(f.path, f.saved)
    }

    function Start(saved: SavedRow, plan: Plan): nat {
      if plan.resume then saved.offset else 0
    }

    /** Identical metadata stands for identical content. */
    lemma SameContent(v: Visit, saved: Stat)
      requires Coherent(env, v) && v.path !in env.world.exempt
      requires saved.size == v.stat.size && saved.mtimeSec == v.stat.mtimeSec && saved.mtimeNsec == v.stat.mtimeNsec
      ensures env.world.content(v.path, KeyOf(saved)) == v.content
    {
    }

    lemma WriteAfterHash(f: FileState, v: Visit, plan: Plan, known: bool, reach: nat)
      requires Prepared(f, v, plan) && Tracks(f, known, reach) && f.rehash && !f.readError
      requires Outcome(f, v, Start(f.saved, plan), reach) && (f.offset == 0 ==> !interrupted)
      requires known ==> ShouldUpdate(env.cfg, f.locked, f.saved, plan, f.offset)
      ensures MayWrite(f, known)
    {
      hide ContextOf, DigestOf, HasPath;
    }

    lemma WriteReused(f: FileState, v: Visit, plan: Plan, known: bool)
      requires Prepared(f, v, plan) && Tracks(f, known, f.offset) && !f.rehash && !f.wrongType
      requires f.offset == Start(f.saved, plan) && (f.offset > 0 ==> f.ctx == f.saved.ctx)
      requires f.digest == f.saved.digest && known == f.saved.wasInDb
      requires known ==> ShouldUpdate(env.cfg, f.locked, f.saved, plan, f.offset)
      ensures MayWrite(f, known)
    {
      hide ContextOf, DigestOf, HasPath;
      if f.path !in env.world.exempt && f.saved.wasInDb && !Compare(f.saved.stat, f.stat).size &&
          !Compare(f.saved.stat, f.stat).mtime {
        SameContent(v, f.saved.stat);
      }
    }

    /** The file is to be saved: nothing is wrong with it, and a stored row may be replaced. */
    predicate Savable(f: FileState, plan: Plan, known: bool)
      reads f`readable, f`ignored, f`violation, f`readError, f`mismatch, f`locked, f`saved, f`offset
    {
      && f.readable && !f.ignored && !f.violation && !f.readError && !f.mismatch
      && (known ==> ShouldUpdate(env.cfg, f.locked, f.saved, plan, f.offset))
    }

    /** A sealed row is being verified by --rehash-locked. */
    predicate Verifying(f: FileState, plan: Plan)
      reads f`rehash
    {
      env.cfg.rehashLocked && plan.lockReady && f.rehash
    }

    /** The preconditions of hashing follow from the decision. */
    lemma PreparedToHash(f: FileState, v: Visit, plan: Plan)
      requires Prepared(f, v, plan) && Loaded(f) && f.rehash
      requires f.offset == Start(f.saved, plan) && (f.offset > 0 ==> f.ctx == f.saved.ctx)
      ensures Hashable(f) && Tracks(f, f.saved.wasInDb, f.offset) && Coherent(env, v)
      ensures f.path == v.path && f.stat == v.stat && !f.zeroSize
      ensures f.offset == 0 || f.path in env.world.exempt || Absorbed(f, v)
      ensures f.offset > 0 ==> f.saved.wasInDb && !ShouldUpdate(env.cfg, f.locked, f.saved, plan, f.offset)
    {
      if f.offset > 0 && f.path !in env.world.exempt {
        SameContent(v, f.saved.stat);
      }
    }

    /** An interruption that leaves nothing to resume from abandons the file. */
    method NoticeInterruption(f: FileState) returns (next: Next)
      requires !f.hashInterrupted
      modifies this`interrupted, f`hashInterrupted
      ensures Signalled()
      ensures next == if interrupted && f.offset == 0 then Skip else Go
      ensures f.hashInterrupted == (interrupted && f.offset > 0)
    {
      Poll();
      next := Go;
      if interrupted {
        if f.offset == 0 {
          next := Skip;
          return;
        }
        f.hashInterrupted := true;
      }
    }

    /** Hash the file, unless an interruption has already been noticed. */
    method HashUnlessHalted(f: FileState, v: Visit, plan: Plan, status0: Return)
      returns (status: Return, known: bool, ghost reach: nat)
      requires Inv() && Prepared(f, v, plan) && Loaded(f) && Calm(status0) && f.rehash
      requires f.offset == Start(f.saved, plan) && (f.offset > 0 ==> f.ctx == f.saved.ctx)
      requires !f.readError && !f.wrongType
      requires Rested(f.path)
      modifies this`active, this`startedNs, this`now, this`interrupted, this`journal, this`readings, db
      modifies f`id, f`inserted, f`updated, f`offset, f`ctx, f`digest, f`readError, f`wrongType
      ensures Inv() && (Calm(status) || Failed(status)) && Continues(f, f.saved.wasInDb, known, status.success)
      ensures status.success ==>
                Tracks(f, known, reach) && (Healthy() ==> old(Healthy()) && db.epoch == old(db.epoch))
      ensures status.success ==> Idle(journal) && (f.readError || AtPosition(f, v, old(f.offset)))
      ensures status.success ==>
                || Outcome(f, v, old(f.offset), reach)
                || (interrupted && !f.wrongType && !f.readError && f.offset == old(f.offset)
                    && (f.offset > 0 ==> known && !ShouldUpdate(env.cfg, f.locked, f.saved, plan, f.offset)))
      ensures !Hashing(env) ==> f.digest == old(f.digest)
    {
      hide MayFail, Inv, Noted, Recorded, Entries, Position, Unread, Troubled, Prepared, Hashable, Tracks, Coherent,
           Loaded;
      hide OnSchedule, Absorbed, DigestOf, ShouldUpdate, ContextOf, RowSound, SavedSound, Outcome;
      PreparedToHash(f, v, plan);
      RestedFacts(f, v);
      status, known, reach := status0, f.saved.wasInDb, f.offset;
      if status == SUCCESS {
        status, known, reach := Sha512Sum(f, v, known);
      }
    }

    /** Hash the file, and notice an interruption. */
    method Rehash(f: FileState, v: Visit, plan: Plan, status0: Return)
      returns (status: Return, known: bool, next: Next, ghost reach: nat)
      requires Inv() && Prepared(f, v, plan) && Loaded(f) && Calm(status0) && f.rehash
      requires f.offset == Start(f.saved, plan) && (f.offset > 0 ==> f.ctx == f.saved.ctx)
      requires !f.readError && !f.wrongType && !f.hashInterrupted
      requires Rested(f.path)
      modifies this`active, this`startedNs, this`now, this`interrupted, this`journal, this`readings, db
      modifies f`id, f`inserted, f`updated, f`offset, f`ctx, f`digest, f`readError, f`wrongType, f`hashInterrupted
      ensures Inv() && old(now) <= now && Signalled() && Kept(f, f.saved.wasInDb, known)
      ensures next == Stop ==> Failed(status) && MayFail(env)
      ensures next != Stop ==>
                Calm(status) && (Healthy() ==> old(Healthy()) && db.epoch == old(db.epoch)) &&
                (v.seekable ==> !f.wrongType)
      ensures next == Go && !v.seekable && !f.readError ==> f.offset == old(f.offset) && (interrupted || f.wrongType)
      ensures next != Stop ==> Idle(journal) && (f.readError || AtPosition(f, v, old(f.offset)))
      ensures next == Skip ==> interrupted && !f.hashInterrupted && f.offset == 0
      ensures next == Go ==>
                Tracks(f, known, reach) && (f.offset == 0 ==> !interrupted) && f.hashInterrupted == interrupted
      ensures next == Go ==>
                || Outcome(f, v, old(f.offset), reach)
                || (interrupted && known && !ShouldUpdate(env.cfg, f.locked, f.saved, plan, f.offset))
      ensures IsSealed(f) && next != Stop && Healthy() ==> db.view == old(db.view)
      ensures !Hashing(env) ==> f.digest == old(f.digest) && (next == Go ==> f.offset == old(f.offset))
    {
      hide MayFail, Inv, Noted, Recorded, Entries, Idle, Position, Unread, Troubled, Prepared, Hashable, Tracks,
           Coherent, Loaded;
      hide AtPosition, OnSchedule, Absorbed, DigestOf, ShouldUpdate, ContextOf, RowSound, SavedSound;
      status, known, reach := HashUnlessHalted(f, v, plan, status0);
      next := Stop;
      if status.success {
        next := NoticeInterruption(f);
      }
    }

    /** What is known about the digest and the offset before they are compared or saved. */
    predicate Obtained(f: FileState, v: Visit, plan: Plan, known: bool, start: nat, digest: Digest)
      reads this`interrupted, f
    {
      && (v.seekable ==> !f.wrongType)
      && if f.rehash then
           && f.hashInterrupted == interrupted && (f.offset == 0 ==> !interrupted)
           && (!v.seekable && !f.readError ==> f.offset == start && (interrupted || f.wrongType))
           && (v.seekable && Hashing(env) && !f.readError && !interrupted ==>
                 && f.offset == 0
                 && ((plan.resume && f.path in env.world.exempt) || f.digest == DigestOf(env.world.comp, v.content)))
           && (!Hashing(env) ==> f.digest == digest && f.offset == start)
         else
           !f.hashInterrupted && !f.wrongType && f.offset == start && f.digest == f.saved.digest &&
               known == f.saved.wasInDb
    }

    /** Recompute the digest of a readable file. */
    method RehashStage(f: FileState, v: Visit, plan: Plan, status0: Return)
      returns (status: Return, known: bool, next: Next)
      requires Inv() && Prepared(f, v, plan) && Loaded(f) && Calm(status0) && f.rehash
      requires f.offset == Start(f.saved, plan) && (f.offset > 0 ==> f.ctx == f.saved.ctx)
      requires !f.readError && !f.wrongType && !f.hashInterrupted
      requires Rested(f.path)
      modifies this`active, this`startedNs, this`now, this`interrupted, this`journal, this`readings, db
      modifies f`id, f`inserted, f`updated, f`offset, f`ctx, f`digest, f`readError, f`wrongType, f`hashInterrupted
      ensures Inv() && old(now) <= now && Signalled() && Kept(f, f.saved.wasInDb, known)
      ensures next == Stop ==> Failed(status) && MayFail(env)
      ensures next != Stop ==> Calm(status) && (Healthy() ==> old(Healthy()) && db.epoch == old(db.epoch))
      ensures next != Stop ==> Idle(journal) && Caught(f, v)
      ensures next == Skip ==> interrupted && !f.hashInterrupted && f.offset == 0
      ensures next == Go && Savable(f, plan, known) ==> MayWrite(f, known)
      ensures IsSealed(f) && next != Stop && Healthy() ==> db.view == old(db.view)
      ensures next == Go ==> Obtained(f, v, plan, known, old(f.offset), old(f.digest))
    {
      hide MayFail, Inv, Noted, Entries, Position, Unread, Troubled, Kept, Prepared, Loaded, Tracks, MayWrite,
           DigestOf, Absorbed;
      PreparedToHash(f, v, plan);
      ghost var reach;
      status, known, next, reach := Rehash(f, v, plan, status0);
      if next != Stop { CaughtUp(f, v, plan); }
      if next == Go && !f.readError && Outcome(f, v, Start(f.saved, plan), reach)
         && (known ==> ShouldUpdate(env.cfg, f.locked, f.saved, plan, f.offset))
      {
        WriteAfterHash(f, v, plan, known, reach);
      }
    }

    /** Only an empty file is resumed without hashing, and there is nothing of it to resume. */
    lemma NothingToResume(f: FileState, v: Visit, plan: Plan)
      requires Prepared(f, v, plan) && !f.rehash
      ensures f.path !in env.world.exempt ==> Start(f.saved, plan) == 0
    {
      if plan.resume && f.path !in env.world.exempt {
        SameContent(v, f.saved.stat);
      }
    }

    /** Reuse the stored digest. */
    method Reuse(f: FileState, v: Visit, plan: Plan)
      requires Recorded() && Prepared(f, v, plan) && Loaded(f) && !f.rehash
      requires f.offset == Start(f.saved, plan) && (f.offset > 0 ==> f.ctx == f.saved.ctx)
      requires !f.wrongType && !f.hashInterrupted
      modifies f`digest
      ensures Kept(f, f.saved.wasInDb, f.saved.wasInDb)
      ensures Savable(f, plan, f.saved.wasInDb) ==> MayWrite(f, f.saved.wasInDb)
      ensures Obtained(f, v, plan, f.saved.wasInDb, f.offset, ZERO_DIGEST)
      ensures f.path !in env.world.exempt ==> f.offset == 0
    {
      NothingToResume(f, v, plan);
      hide Prepared, MayWrite;
      f.digest := f.saved.digest;
      if Savable(f, plan, f.saved.wasInDb) {
        WriteReused(f, v, plan, f.saved.wasInDb);
      }
    }

    /** Load the row and classify the path. */
    method Open(v: Visit) returns (status: Return, next: Next, f: FileState)
      requires Inv() && !broken && v.path !in turn.taken
      modifies this`interrupted
      ensures fresh(f) && Inv() && Signalled()
      ensures Quiet(status.failure)
      ensures f.path == v.path && f.stat == v.stat && f.Untouched()
      ensures next == Stop ==> status != SUCCESS && !status.warning && (status.failure || interrupted)
      ensures next != Stop ==> Calm(status) && Loaded(f) && f.locked == Locked(env, v.path)
      ensures next == Skip ==> f.unavailable && f.locked && f.saved.wasInDb && v.access != Allowed
      ensures next == Go ==>
                && !f.unavailable
                && f.ignored == (IsIgnored(env.cfg, f.path) == Some(true) && !f.locked)
                && f.readable == (!f.ignored && v.access == Allowed)
                && (f.saved.wasInDb && f.locked ==> v.access == Allowed)
    {
      hide Inv, Noted, Entries, Position, Unread, Troubled, IsIgnored, HasPath, RowSound, SavedSound, SealRead;
      next := Stop;
      f := new FileState(v.path, v.stat);
      status := Attempt();  // path_build_relative
      if !status.success {
        return;
      }
      if !Skips(status) {
        var r := Load(f);
        status := Merged(status, r);
      }
      if status != SUCCESS {
        return;
      }
      status, next := Classify(f, v);
    }

    lemma DecidedToSkip(f: FileState)
      ensures
        var plan := MakePlan(env.cfg, f.locked, f.saved, f.stat);
        plan.upToDate || plan.driftOnly ==> !plan.resume && !plan.violation
    {
    }

    /** Take the decision and restore the resume point. */
    method Decide(f: FileState, v: Visit) returns (plan: Plan, next: Next)
      requires Coherent(env, v) && Loaded(f) && f.path == v.path && f.stat == v.stat && f.locked == Locked(env, v.path)
      requires f.Untouched() && f.path in turn.current
      modifies f`rehash, f`offset, f`ctx, f`restarted, f`zeroSize, f`violation
      ensures plan == MakePlan(env.cfg, f.locked, f.saved, f.stat)
      ensures next == (if plan.upToDate || plan.driftOnly then Skip else Go)
      ensures next == Go ==>
                Prepared(f, v, plan) && f.offset == Start(f.saved, plan) && (f.offset > 0 ==> f.ctx == f.saved.ctx)
      ensures next == Skip ==> f.Untouched()
    {
      DecidedToSkip(f);
      hide MakePlan, SavedSound, SealRead, Coherent, HasPath;
      plan := MakePlan(env.cfg, f.locked, f.saved, f.stat);
      next := if plan.upToDate || plan.driftOnly then Skip else Go;
      if plan.upToDate {
        return;
      }
      f.rehash := plan.rehash;
      if plan.resume {
        f.offset, f.ctx := f.saved.offset, f.saved.ctx;
      } else if plan.restart {
        f.restarted := true;
      }
      f.zeroSize := plan.zeroSize;
      f.violation := plan.violation;
    }

    /** The row to be saved respects a sealed digest. */
    ghost predicate RowSafe(f: FileState)
      reads this`turn, f`offset, f`digest, f`ctx, f`zeroSize, f`wrongType
    {
      RowGuarded(env, f.AsRow()) && f.path in turn.current
    }

    lemma AtRest()
      requires Inv()
      ensures db.log != [] && db.log[|db.log| - 1] == Snapshot(db.durable, db.view, db.epoch)
      ensures env.cfg.dryRun ==> !active && !db.open
    {
    }

    ghost method BreakSeal()
      requires Inv()
      modifies this`broken
      ensures Inv() && broken
    {
      broken := true;
    }

    /** The final save of a file that is in order. */
    method SaveStage(f: FileState, plan: Plan, status0: Return, known: bool) returns (status: Return, known': bool)
      requires Inv() && Calm(status0) && (Savable(f, plan, known) ==> MayWrite(f, known) && RowSafe(f))
      modifies this`active, this`startedNs, this`now, this`interrupted, this`readings, this`broken, db,
               f`id, f`inserted, f`updated
      ensures broken ==> old(broken) || (f.path in env.seals && f.offset > 0 && Savable(f, plan, known))
      ensures Inv() && old(now) <= now && Signalled() && old(db.log) <= db.log
      ensures env.cfg.dryRun ==> db.log == old(db.log)
      ensures Quiet(status.failure)
      ensures Calm(status) || Failed(status)
      ensures !status.failure ==> (Healthy() ==> old(Healthy()) && db.epoch == old(db.epoch))
      ensures !status.failure && Savable(f, plan, known) && !env.cfg.dryRun ==>
                known' && db.view == old(db.view)[f.id := f.AsRow()]
      ensures !status.failure && (!Savable(f, plan, known) || env.cfg.dryRun) ==>
                known' == known && db.view == old(db.view) && f.id == old(f.id)
      ensures known && !status.failure ==> f.id == old(f.id)
      ensures !status.failure && !known && known' ==> f.id !in old(db.view)
      ensures !status.failure && Savable(f, plan, known) ==>
                if f.saved.wasInDb then f.updated && f.inserted == old(f.inserted)
                else f.inserted && f.updated == old(f.updated)
      ensures status.failure || !Savable(f, plan, known) ==>
                f.updated == old(f.updated) && f.inserted == old(f.inserted)
    {
      hide MayFail, Inv, Noted, Recorded, Entries, Position, Unread, Troubled, MayWrite, ShouldUpdate;
      AtRest();
      status, known' := status0, known;
      if Savable(f, plan, known) {
        if f.path in env.seals && f.offset > 0 {
          BreakSeal();
        }
        status, known' := Save(f, known, true);
        AtRest();
      }
    }

    lemma UpToDateIsCovered(f: FileState, v: Visit)
      requires Inv() && Loaded(f) && Coherent(env, v) && v.path !in env.world.exempt && f.path == v.path &&
                 f.stat == v.stat
      requires f.saved.wasInDb && f.saved.offset == 0 && Identical(f.saved.stat, f.stat)
      ensures Covered(env, db.view, v)
    {
      var r := db.view[f.id];
      assert db.log[|db.log| - 1].view == db.view;
      SoundRow(env.world, db.view, f.id);
      SameContent(v, r.stat);
      assert CoveredBy(env, r, v);
    }

    /** Hashing reached the end of the file, or was not needed. */
    predicate Complete(f: FileState)
      reads this`active, this`interrupted, db`open, f`readError, f`offset
    {
      (active ==> db.open) && (interrupted ==> f.offset == 0) && !f.readError && !env.cfg.dryRun
    }

    /** The file is reported as added or updated. */
    predicate Reported(f: FileState)
      reads f`inserted, f`updated
    {
      f.inserted || f.updated
    }

    /** Nothing came in the way of the file; an interruption came after its save at the earliest. */
    predicate Undisturbed(f: FileState)
      reads this`active, this`interrupted, db`open, f`readError, f`offset, f`inserted, f`updated
    {
      Complete(f) && (interrupted ==> Reported(f))
    }

    /** More of the file has been hashed than its row knew. */
    predicate Further(f: FileState)
      reads f`saved, f`readError, f`offset
    {
      && !env.cfg.dryRun && !f.readError && f.offset > 0
      && (f.saved.wasInDb && Identical(f.saved.stat, f.stat) ==> f.offset > f.saved.offset)
    }

    /** If reading stopped inside the file, all that was read is hashed and worth saving. */
    ghost predicate Caught(f: FileState, v: Visit)
      reads this`journal, f`saved, f`readError, f`offset
    {
      !f.readError && !env.cfg.dryRun && 0 < Position(journal, f.path) < |v.content| ==>
        Further(f) && f.offset == Position(journal, f.path)
    }

    lemma CaughtUp(f: FileState, v: Visit, plan: Plan)
      requires Prepared(f, v, plan)
      ensures f.readError || AtPosition(f, v, Start(f.saved, plan)) ==> Caught(f, v)
    {
      hide Position, Coherent, SavedSound, SealRead;
    }

    /** What is reported as saved is in the view, and whatever has been hashed of an ordinary file is reported. */
    ghost predicate Stored(f: FileState, v: Visit)
      reads this`active, db`open, db`view, f
    {
      && (Healthy() && Reported(f) && !env.cfg.dryRun ==> f.id in db.view && db.view[f.id] == f.AsRow())
      && (Ordinary(env, v) && Further(f) ==> Reported(f))
    }

    // ----- Alarms -----

    /** The flags of a file say what happened to it. */
    ghost predicate Marked(f: FileState, v: Visit)
      reads this`interrupted, this`journal, f
    {
      && (f.hashInterrupted ==> interrupted && f.offset > 0)
      && Caught(f, v) && (f.readError ==> Troubled(journal, f.path))
      && (Ordinary(env, v) && !f.readError && !env.cfg.dryRun && f.offset > 0 ==> f.hashInterrupted)
      && (!interrupted && !f.readError ==> (f.violation || f.mismatch <==> Alarm(env, f.saved, v)))
    }

    /** --rehash-locked meets a readable file of unchanged size whose row is complete. */
    predicate SealedRow(f: FileState, v: Visit)
      reads db`view, f`id, f`saved, f`locked, f`readable, f`ignored
    {
      && env.cfg.rehashLocked && f.locked && f.saved.wasInDb && f.saved.offset == 0
      && f.readable && !f.ignored && f.saved.stat.size == v.stat.size > 0
      && f.id in db.view && db.view[f.id].offset == None && db.view[f.id].digest.Some?
    }

    /** The row of a sealed file after a verifying pass. */
    ghost predicate Verified(r: Row, r': Row, v: Visit, f: FileState)
      reads f`mismatch, f`hashInterrupted, f`offset
    {
      // An interruption in the middle of the pass leaves the row unfinished, at the byte reached;
      && f.hashInterrupted == (f.offset > 0)
      && r'.offset == (if f.hashInterrupted && !env.cfg.dryRun then Some(f.offset) else None)
      // a file that cannot be seeked loses its digest as soon as its metadata has changed;
      && (!v.seekable ==>
            && !f.mismatch && !f.hashInterrupted
            && (if env.cfg.dryRun || Identical(r.stat, v.stat) then r' == r
                else r'.digest == None && r'.stat == v.stat))
      // otherwise the digest stays, mismatches are reported, and the metadata follows a match only.
      && (v.seekable && !f.hashInterrupted && Hashing(env) ==>
            && f.mismatch == (r.digest != Some(DigestOf(env.world.comp, v.content)))
            && r'.digest == r.digest
            && (r' == r || (r'.stat == v.stat && r.digest == Some(DigestOf(env.world.comp, v.content)))))
      // A dry run without checksums compares the stored digest with zeros.
      && (v.seekable && !Hashing(env) ==> f.mismatch == (r.digest != Some(ZERO_DIGEST)))
    }

    /** A verifying pass ran, or an interruption at byte zero dropped the file before its comparison. */
    ghost predicate Examined(r: Row, r': Row, v: Visit, f: FileState)
      reads this`interrupted, f`mismatch, f`hashInterrupted, f`offset
    {
      Verified(r, r', v, f) || (interrupted && f.offset == 0 && !f.hashInterrupted && !f.mismatch && r' == r)
    }

    /** A file without a sealed row is saved whenever it was not up to date. */
    lemma OrdinaryPlan(f: FileState, v: Visit, plan: Plan)
      requires Prepared(f, v, plan) && !IsSealed(f)
      ensures !plan.violation && !plan.lockReady && ShouldUpdate(env.cfg, f.locked, f.saved, plan, 0)
      ensures f.zeroSize == (v.stat.size == 0) && (f.path !in env.world.exempt ==> v.seekable)
      ensures !f.rehash && f.path !in env.world.exempt ==>
                Start(f.saved, plan) == 0 && (f.stat.size == 0 || f.saved.digest == DigestOf(env.world.comp, v.content))
    {
      hide ContextOf, DigestOf;
      if f.saved.wasInDb && f.path !in env.world.exempt
         && !Compare(f.saved.stat, f.stat).size && !Compare(f.saved.stat, f.stat).mtime
      {
        SameContent(v, f.saved.stat);
      }
    }

    /** A sealed file of unchanged, positive size is hashed from its first byte, and its row is
        replaced exactly when an offset remains or the metadata has changed. */
    lemma SealedPlan(f: FileState, v: Visit, plan: Plan)
      requires Prepared(f, v, plan) && SealedRow(f, v)
      ensures Verifying(f, plan) && !plan.violation && !f.zeroSize && !plan.resume && Start(f.saved, plan) == 0
      ensures forall k: nat ::
                ShouldUpdate(env.cfg, f.locked, f.saved, plan, k) <==> k > 0 || !Identical(f.saved.stat, f.stat)
    {
    }

    lemma NewPlan(f: FileState, v: Visit, plan: Plan)
      requires Prepared(f, v, plan) && !f.saved.wasInDb
      ensures !plan.violation && !plan.lockReady
      ensures forall k: nat :: ShouldUpdate(env.cfg, f.locked, f.saved, plan, k)
    {
    }

    lemma SealedIsDecided(f: FileState, v: Visit)
      requires f.stat == v.stat
      ensures
        var plan := MakePlan(env.cfg, f.locked, f.saved, f.stat);
        IsSealed(f) && env.cfg.rehashLocked && f.saved.stat.size == v.stat.size > 0 ==>
            !plan.upToDate && !plan.driftOnly
    {
    }

    predicate Processed(f: FileState)
      reads f`readable, f`ignored, f`violation
    {
      f.readable && !f.ignored && !f.violation
    }

    /** What hashing has established about a sealed file, and whether its row will be written. */
    predicate SealedVerdict(f: FileState, v: Visit, plan: Plan)
      reads f`mismatch, f`hashInterrupted, f`offset, f`digest, f`saved, f`zeroSize, f`wrongType
      reads f`readable, f`ignored, f`violation, f`readError, f`locked
    {
      && f.wrongType == !v.seekable && !f.zeroSize
      && (!Hashing(env) || f.wrongType ==> !f.hashInterrupted)
      && f.mismatch == (!f.wrongType && !f.hashInterrupted && f.digest != f.saved.digest)
      && (f.hashInterrupted <==> f.offset > 0)
      && (f.wrongType || f.hashInterrupted
          || f.digest == if Hashing(env) then DigestOf(env.world.comp, v.content) else ZERO_DIGEST)
      && (Savable(f, plan, true) <==> f.hashInterrupted || (!f.mismatch && !Identical(f.saved.stat, f.stat)))
    }

    predicate Compared(f: FileState, plan: Plan)
      reads f
    {
      f.mismatch == (Verifying(f, plan) && !f.readError && !f.wrongType && !f.zeroSize && f.offset == 0
                     && f.digest != f.saved.digest)
    }

    /** An ordinary file that was not interrupted is saved with a row that covers it. */
    lemma OrdinaryDone(f: FileState, v: Visit, plan: Plan, known: bool)
      requires Prepared(f, v, plan) && Processed(f) && !IsSealed(f) && f.path !in env.world.exempt && Complete(f)
      requires Obtained(f, v, plan, known, Start(f.saved, plan), ZERO_DIGEST) && Compared(f, plan)
      ensures Savable(f, plan, known) && CoveredBy(env, f.AsRow(), v)
    {
      hide MakePlan, ShouldUpdate, DigestOf, SavedSound, Coherent;
      OrdinaryPlan(f, v, plan);
    }

    /** What has been hashed of an ordinary file is worth saving. */
    lemma FurtherDone(f: FileState, v: Visit, plan: Plan, known: bool)
      requires Prepared(f, v, plan) && Processed(f) && !IsSealed(f) && Further(f) && Compared(f, plan)
      ensures Savable(f, plan, known)
    {
      hide DigestOf, SavedSound, Coherent;
    }

    lemma MarkedDone(f: FileState, v: Visit, plan: Plan, known: bool)
      requires Prepared(f, v, plan) && Processed(f) && Eligible(f, v)
      requires Obtained(f, v, plan, known, Start(f.saved, plan), ZERO_DIGEST) && Compared(f, plan)
      requires Caught(f, v) && (f.readError ==> Troubled(journal, f.path))
      ensures Marked(f, v)
    {
      hide Caught, DigestOf, SavedSound, Coherent;
      if Ordinary(env, v) { OrdinaryPlan(f, v, plan); }
    }

    /** A file that is not hashed is flagged by its metadata alone. */
    lemma MarkedUnprocessed(f: FileState, v: Visit, plan: Plan)
      requires Prepared(f, v, plan) && Eligible(f, v) && !Processed(f) && !f.hashInterrupted && !f.mismatch
      requires Rested(f.path) && !f.readError
      ensures Marked(f, v) && Caught(f, v)
    {
      NothingRead(journal, f.path);
      hide DigestOf, SavedSound, Coherent;
    }

    lemma SealedDone(f: FileState, v: Visit, plan: Plan, known: bool)
      requires Prepared(f, v, plan) && Processed(f) && SealedRow(f, v) && !f.readError
      requires Obtained(f, v, plan, known, Start(f.saved, plan), ZERO_DIGEST) && Compared(f, plan)
      ensures SealedVerdict(f, v, plan)
    {
      hide MakePlan, ShouldUpdate, DigestOf, SavedSound, Coherent;
      SealedPlan(f, v, plan);
    }

    /** The final row of a sealed path has the sealed digest, unless an interruption left it unfinished. */
    lemma SavedSafely(f: FileState, v: Visit, plan: Plan, known: bool)
      requires Prepared(f, v, plan) && Savable(f, plan, known) && (f.saved.wasInDb ==> known)
      requires Obtained(f, v, plan, known, Start(f.saved, plan), ZERO_DIGEST) && Compared(f, plan)
      ensures RowSafe(f)
      ensures f.path in env.seals && f.offset > 0 ==> f.hashInterrupted && interrupted
    {
      hide DigestOf, SavedSound, ContextOf;
    }

    lemma SealedSaved(f: FileState, v: Visit, plan: Plan, r: Row, r': Row)
      requires SealedVerdict(f, v, plan) && f.stat == v.stat
      requires r.offset == None && r.digest == Some(f.saved.digest) && r.stat == f.saved.stat
      requires r' == if Savable(f, plan, true) && !env.cfg.dryRun then f.AsRow() else r
      ensures Verified(r, r', v, f)
    {
      hide DigestOf, ShouldUpdate;
    }

    /** Hash or reuse, then compare with a sealed digest. */
    method HashStage(f: FileState, v: Visit, plan: Plan, status0: Return)
      returns (status: Return, known: bool, next: Next)
      requires Inv() && Prepared(f, v, plan) && Loaded(f) && Calm(status0) && Processed(f)
      requires f.offset == Start(f.saved, plan) && (f.offset > 0 ==> f.ctx == f.saved.ctx) && f.digest == ZERO_DIGEST
      requires !f.readError && !f.wrongType && !f.hashInterrupted && !f.mismatch
      requires Rested(f.path)
      modifies this`active, this`startedNs, this`now, this`interrupted, this`journal, this`readings, db
      modifies f`id, f`inserted, f`updated, f`offset, f`ctx, f`digest, f`readError, f`wrongType, f`mismatch,
               f`hashInterrupted
      ensures Inv() && old(now) <= now && Signalled() && Kept(f, f.saved.wasInDb, known)
      ensures next == Stop ==> Failed(status) && MayFail(env)
      ensures next != Stop ==> Calm(status) && (Healthy() ==> old(Healthy()) && db.epoch == old(db.epoch))
      ensures next != Stop ==> Idle(journal) && Caught(f, v)
      ensures next == Skip ==> interrupted && !f.hashInterrupted && !f.mismatch && f.offset == 0
      ensures next == Go && Savable(f, plan, known) ==> MayWrite(f, known)
      ensures next == Go ==> Obtained(f, v, plan, known, Start(f.saved, plan), ZERO_DIGEST) && Compared(f, plan)
      ensures IsSealed(f) && next != Stop && Healthy() ==> db.view == old(db.view)
    {
      hide MayFail, Inv, Noted, Recorded, Entries, Position, Unread, Troubled, Kept, Prepared, Loaded, MayWrite,
           ShouldUpdate, DigestOf, Coherent, SavedSound, HasPath;
      status, known, next := status0, f.saved.wasInDb, Go;
      if f.rehash {
        status, known, next := RehashStage(f, v, plan, status0);
      } else {
        Reuse(f, v, plan);
        NothingRead(journal, f.path);
      }
      if next == Go && !f.readError && Verifying(f, plan) && !f.wrongType && !f.zeroSize && f.offset == 0 {
        if f.digest != f.saved.digest {
          f.mismatch := true;
        }
      }
    }

    lemma NewDone(f: FileState, v: Visit, plan: Plan, known: bool)
      requires Prepared(f, v, plan) && Processed(f) && !f.saved.wasInDb && !f.readError && Compared(f, plan)
      ensures Savable(f, plan, known)
    {
      NewPlan(f, v, plan);
    }

    lemma LoadedFacts(f: FileState, v: Visit, plan: Plan)
      requires Prepared(f, v, plan) && Loaded(f)
      ensures f.path == v.path && f.stat == v.stat
      ensures SealedRow(f, v) ==>
                Processed(f) && IsSealed(f) && db.view[f.id].digest == Some(f.saved.digest) &&
                    db.view[f.id].stat == f.saved.stat
      ensures !IsSealed(f) ==> !f.violation
      ensures !f.saved.wasInDb ==> !HasPath(db.view, v.path)
    {
      if SealedRow(f, v) { SealedPlan(f, v, plan); }
    }

    lemma CoveredIntro(t: Table, id: RowId, v: Visit)
      requires id in t && CoveredBy(env, t[id], v)
      ensures Covered(env, t, v)
    {
    }

    /** An ordinary file is processed, and its row is not sealed; a known locked file is accessible. */
    predicate Eligible(f: FileState, v: Visit)
      reads f`saved, f`locked, f`readable, f`ignored, f`violation
    {
      && (Ordinary(env, v) ==> Processed(f) && f.path == v.path && f.path !in env.world.exempt && !IsSealed(f))
      && (f.saved.wasInDb && f.locked ==> v.access == Allowed && f.readable && !f.ignored)
    }

    /** What the final save may rely on, for an ordinary, a sealed and a new file. */
    ghost predicate Ready(f: FileState, v: Visit, plan: Plan, known: bool, sealed: bool)
      reads this`active, this`interrupted, this`turn, this`journal, db`open, db`view, f
    {
      && (Savable(f, plan, known) ==> MayWrite(f, known) && RowSafe(f))
      && (Savable(f, plan, known) && f.path in env.seals && f.offset > 0 ==> f.hashInterrupted && interrupted)
      && (Complete(f) && Ordinary(env, v) ==> Savable(f, plan, known) && CoveredBy(env, f.AsRow(), v))
      && (Ordinary(env, v) && Further(f) ==> Savable(f, plan, known))
      && Marked(f, v)
      && (sealed && Healthy() ==>
            && known && f.id in db.view && SealedVerdict(f, v, plan)
            && db.view[f.id].offset == None && db.view[f.id].digest == Some(f.saved.digest)
            && db.view[f.id].stat == f.saved.stat)
      && (Processed(f) && !f.readError && !f.saved.wasInDb ==> Savable(f, plan, known))
      && (!Processed(f) && !f.saved.wasInDb ==> !HasPath(db.view, v.path))
    }

    /** Hash or reuse, compare, and draw the conclusions. */
    method Judge(f: FileState, v: Visit, plan: Plan, status0: Return) returns (status: Return, known: bool, next: Next)
      requires Inv() && Prepared(f, v, plan) && Loaded(f) && Eligible(f, v) && Calm(status0) && Processed(f)
      requires f.offset == Start(f.saved, plan) && (f.offset > 0 ==> f.ctx == f.saved.ctx) && f.digest == ZERO_DIGEST
      requires !f.readError && !f.wrongType && !f.hashInterrupted && !f.mismatch && !f.inserted && !f.updated
      requires Rested(f.path)
      modifies this`active, this`startedNs, this`now, this`interrupted, this`journal, this`readings, db
      modifies f`id, f`inserted, f`updated, f`offset, f`ctx, f`digest, f`readError, f`wrongType, f`mismatch,
               f`hashInterrupted
      ensures Inv() && old(now) <= now && Signalled() && Kept(f, f.saved.wasInDb, known)
      ensures next == Stop ==> Failed(status) && MayFail(env)
      ensures next != Stop ==> Calm(status) && (Healthy() ==> old(Healthy()) && db.epoch == old(db.epoch))
      ensures next != Stop ==> Idle(journal) && Caught(f, v)
      ensures next == Skip ==> interrupted && !f.hashInterrupted && !f.mismatch && f.offset == 0
      ensures next == Go ==> Ready(f, v, plan, known, old(SealedRow(f, v)) && !f.readError)
      ensures IsSealed(f) && next != Stop && Healthy() ==> db.view == old(db.view) && f.id == old(f.id)
    {
      hide MayFail, Inv, Noted, Recorded, Entries, Position, Unread, Troubled, Prepared, Loaded, ShouldUpdate,
           DigestOf, HasPath, MayWrite, CoveredBy, SealedVerdict, Obtained, Compared, Coherent, SavedSound;
      ghost var sealed := SealedRow(f, v);
      LoadedFacts(f, v, plan);
      status, known, next := HashStage(f, v, plan, status0);
      assert Prepared(f, v, plan);
      if next == Go {
        if Savable(f, plan, known) { SavedSafely(f, v, plan, known); }
        MarkedDone(f, v, plan, known);
        if Complete(f) && Ordinary(env, v) { OrdinaryDone(f, v, plan, known); }
        if Further(f) && Ordinary(env, v) { FurtherDone(f, v, plan, known); }
        if sealed && !f.readError && Healthy() { SealedDone(f, v, plan, known); }
        if !f.saved.wasInDb && !f.readError { NewDone(f, v, plan, known); }
      }
    }

    /** What the file and its row have become, for an ordinary, a sealed and a new path. `was` is the view
        before, `id` and `sealed` say where the row of the file was and whether it was sealed. */
    ghost predicate Result(f: FileState, v: Visit, go: bool, was: Table, id: RowId, sealed: bool)
      reads this`active, this`interrupted, this`journal, db`open, db`view, f
    {
      && (go && Undisturbed(f) && Ordinary(env, v) ==> Covered(env, db.view, v))
      && (go && Healthy() && !f.readable ==> db.view == was)
      && (go ==> Stored(f, v) && Marked(f, v))
      && (go && Healthy() && !f.readError && sealed ==>
            f.id == id && id in db.view && id in was && Examined(was[id], db.view[id], v, f))
      && (f.inserted ==> !f.saved.wasInDb && !f.updated)
      && (f.updated ==> f.saved.wasInDb)
      && (go && Undisturbed(f) && !f.saved.wasInDb && HasPath(db.view, v.path) ==> f.inserted)
    }

    /** Hashing may have come between: it touches neither the row of a sealed file nor that of one not processed. */
    lemma ResultSince(
        f: FileState, v: Visit, go: bool, was: Table, id: RowId, sealed: bool, was': Table, id': RowId, sealed': bool)
      requires Result(f, v, go, was, id, sealed)
      requires go && Healthy() && !f.readable ==> was == was'
      requires go && Healthy() && !f.readError && sealed' ==> sealed && was == was' && id == id'
      ensures Result(f, v, go, was', id', sealed')
    {
      hide Marked, Stored, Examined, Undisturbed, HasPath, Covered, Ordinary;
    }

    /** A file dropped at byte zero leaves everything as it was. */
    lemma DroppedResult(f: FileState, v: Visit, was: Table, id: RowId, sealed: bool)
      requires interrupted && !f.hashInterrupted && !f.mismatch && f.offset == 0 && !f.inserted && !f.updated
      requires Caught(f, v) && (f.readError ==> Troubled(journal, f.path)) && f.readable
      requires Healthy() && sealed ==> db.view == was && f.id == id && id in was
      ensures Result(f, v, true, was, id, sealed)
    {
      hide Caught, Troubled, Verified, HasPath, Covered, Ordinary, Alarm, Position, Identical;
    }

    lemma FailedResult(f: FileState, v: Visit, was: Table, id: RowId, sealed: bool)
      requires !f.inserted && !f.updated
      ensures Result(f, v, false, was, id, sealed)
    {
    }

    /** Save, and conclude what the row of the path says now. */
    method Conclude(f: FileState, v: Visit, plan: Plan, status0: Return, known: bool, ghost sealed: bool)
      returns (status: Return, go: bool)
      requires Inv() && Calm(status0) && f.stat == v.stat && !f.inserted && !f.updated
      requires Ready(f, v, plan, known, sealed)
      modifies this`active, this`startedNs, this`now, this`interrupted, this`readings, this`broken, db,
               f`id, f`inserted, f`updated
      ensures broken ==> old(broken) || (f.hashInterrupted && interrupted)
      ensures Inv() && old(now) <= now && Signalled() && old(db.log) <= db.log
      ensures env.cfg.dryRun ==> db.log == old(db.log)
      ensures Quiet(!go)
      ensures known && go ==> f.id == old(f.id)
      ensures go ==> Calm(status) && (Healthy() ==> old(Healthy()) && db.epoch == old(db.epoch))
      ensures !go ==> Failed(status)
      ensures Result(f, v, go, old(db.view), old(f.id), sealed)
    {
      hide MayFail, Caught, Inv, Noted, Recorded, Entries, Unread, Idle, Position, Troubled, Further, ShouldUpdate,
           DigestOf, HasPath, MayWrite, Verified, Covered, CoveredBy, SealedVerdict, Ordinary, RowSafe, IsSealed;
      hide Alarm, Identical, Processed;
      ghost var was := db.view;
      var known';
      status, known' := SaveStage(f, plan, status0, known);
      go := !status.failure;
      if go && Undisturbed(f) && Ordinary(env, v) {
        CoveredIntro(db.view, f.id, v);
      }
      if go && Healthy() && sealed {
        SealedSaved(f, v, plan, was[f.id], db.view[f.id]);
      }
    }

    /** Hash and compare a file that is in order; nothing happens to the others. */
    method Examine(f: FileState, v: Visit, plan: Plan, status0: Return)
      returns (status: Return, known: bool, next: Next)
      requires Inv() && Prepared(f, v, plan) && Loaded(f) && Eligible(f, v) && Calm(status0)
      requires f.offset == Start(f.saved, plan) && (f.offset > 0 ==> f.ctx == f.saved.ctx) && f.digest == ZERO_DIGEST
      requires !f.readError && !f.wrongType && !f.hashInterrupted && !f.mismatch && !f.inserted && !f.updated
      requires Rested(f.path)
      modifies this`active, this`startedNs, this`now, this`interrupted, this`journal, this`readings, db
      modifies f`id, f`inserted, f`updated, f`offset, f`ctx, f`digest, f`readError, f`wrongType, f`mismatch,
               f`hashInterrupted
      ensures Inv() && old(now) <= now && Signalled() && Kept(f, f.saved.wasInDb, known)
      ensures next == Stop ==> Failed(status) && MayFail(env)
      ensures next != Stop ==> Calm(status) && (Healthy() ==> old(Healthy()) && db.epoch == old(db.epoch))
      ensures next != Stop ==> Idle(journal) && Caught(f, v)
      ensures next == Skip ==> interrupted && !f.hashInterrupted && !f.mismatch && f.offset == 0 && f.readable
      ensures next == Go ==> Ready(f, v, plan, known, old(SealedRow(f, v)) && !f.readError && Processed(f))
      ensures IsSealed(f) && next != Stop && Healthy() ==> db.view == old(db.view) && f.id == old(f.id)
      ensures !f.readable ==> db.view == old(db.view)
    {
      hide MayFail, Inv, Noted, Recorded, Entries, Idle, Position, Unread, Troubled, Caught, Prepared, Loaded,
           ShouldUpdate;
      hide DigestOf, HasPath, MayWrite, Verified, CoveredBy, SealedVerdict, Marked;
      LoadedFacts(f, v, plan);
      if Processed(f) {
        hide Ready;
        status, known, next := Judge(f, v, plan, status0);
      } else {
        status, known, next := status0, f.saved.wasInDb, Go;
        MarkedUnprocessed(f, v, plan);
      }
    }

    /** Everything that follows the decision. */
    method Finish(f: FileState, v: Visit, plan: Plan, status0: Return) returns (status: Return, go: bool)
      requires Inv() && Prepared(f, v, plan) && Loaded(f) && Eligible(f, v) && Calm(status0)
      requires f.offset == Start(f.saved, plan) && (f.offset > 0 ==> f.ctx == f.saved.ctx) && f.digest == ZERO_DIGEST
      requires !f.readError && !f.wrongType && !f.hashInterrupted && !f.mismatch && !f.inserted && !f.updated
      requires Rested(f.path)
      modifies this`active, this`startedNs, this`now, this`interrupted, this`journal, this`readings,
               this`broken, db
      modifies f`id, f`inserted, f`updated, f`offset, f`ctx, f`digest, f`readError, f`wrongType, f`mismatch,
               f`hashInterrupted
      ensures Inv() && old(now) <= now && Signalled() && old(db.log) <= db.log
      ensures broken ==> old(broken) || (f.hashInterrupted && interrupted)
      ensures Onward() && (go ==> Idle(journal))
      ensures env.cfg.dryRun ==> db.log == old(db.log)
      ensures go ==> Calm(status) && (Healthy() ==> old(Healthy()) && db.epoch == old(db.epoch))
      ensures !go ==> Failed(status) && MayFail(env)
      ensures Result(f, v, go, old(db.view), old(f.id), old(SealedRow(f, v)))
    {
      hide MayFail, Ready, Result, Marked, Stored, Inv, Noted, Recorded, Entries, Idle, Position, Unread, Troubled,
           Caught, Prepared, Loaded, ShouldUpdate, DigestOf, HasPath, MayWrite, Verified, CoveredBy, SealedVerdict;
      status, go := status0, true;
      ghost var sealed, was, id := SealedRow(f, v), db.view, f.id;
      LoadedFacts(f, v, plan);
      var known, next;
      status, known, next := Examine(f, v, plan, status);
      if next != Go {
        go := next == Skip;
        if go {
          DroppedResult(f, v, was, id, sealed);
        } else {
          FailedResult(f, v, was, id, sealed);
        }
        return;
      }
      ghost var mid, idMid, sealedMid := db.view, f.id, sealed && !f.readError && Processed(f);
      status, go := Conclude(f, v, plan, status, known, sealedMid);
      ResultSince(f, v, go, mid, idMid, sealedMid, was, id, sealed);
    }

    /** A complete row of a locked path, to be verified against a file of the same, positive size. */
    predicate SealedFor(r: Row, v: Visit) {
      && env.cfg.rehashLocked && r.path == v.path && Sealed(env, r) && r.digest.Some?
      && v.access == Allowed && r.stat.size == v.stat.size > 0
    }

    lemma LoadedPath(f: FileState)
      requires Loaded(f)
      ensures f.saved.wasInDb <==> HasPath(db.view, f.path)
    {
      if f.saved.wasInDb {
        HasPathAt(db.view, f.id);
      }
    }

    /** A sealed row is loaded as such, and --rehash-locked never skips it. */
    lemma LoadedSeal(f: FileState, v: Visit, id: RowId)
      requires Inv() && Loaded(f) && f.path == v.path && f.stat == v.stat && f.locked == Locked(env, v.path)
      requires id in db.view && SealedFor(db.view[id], v)
      ensures f.id == id && IsSealed(f) && v.access == Allowed && f.locked
      ensures f.readable && !f.ignored ==> SealedRow(f, v)
      ensures var plan := MakePlan(env.cfg, f.locked, f.saved, f.stat); !plan.upToDate && !plan.driftOnly
    {
      HasPathAt(db.view, id);
      LoadedPath(f);
      SamePath(db.view, f.id, id);
      SealedIsDecided(f, v);
    }

    /** A file that is skipped has a row, is not being verified, and is covered if it is ordinary. */
    lemma SkippedRows(f: FileState, v: Visit)
      requires Inv() && Loaded(f) && Coherent(env, v)
      requires f.path == v.path && f.stat == v.stat && f.locked == Locked(env, v.path)
      requires var plan := MakePlan(env.cfg, f.locked, f.saved, f.stat); plan.upToDate || plan.driftOnly
      requires f.saved.wasInDb && f.locked ==> v.access == Allowed
      ensures !Alarm(env, f.saved, v)
      ensures f.saved.wasInDb && !SealedRow(f, v) && (Ordinary(env, v) ==> Covered(env, db.view, v))
    {
      hide Inv, Noted, Entries, Position, Unread, Troubled, Ordinary, Covered, CoveredBy, SavedSound, SealRead,
           RowGuarded;
      SealedIsDecided(f, v);
      OrdinaryRows(f, v);
      if Ordinary(env, v) { UpToDateIsCovered(f, v); }
    }

    lemma SkippedResult(f: FileState, v: Visit)
      requires Inv() && Loaded(f) && Coherent(env, v) && f.Untouched()
      requires f.path == v.path && f.stat == v.stat && f.locked == Locked(env, v.path)
      requires var plan := MakePlan(env.cfg, f.locked, f.saved, f.stat); plan.upToDate || plan.driftOnly
      requires f.saved.wasInDb && f.locked ==> v.access == Allowed
      requires Rested(f.path)
      ensures Result(f, v, true, db.view, f.id, SealedRow(f, v))
    {
      hide Inv, Noted, Entries, Position, Unread, Troubled, Ordinary, Covered, Loaded, MakePlan, SealedRow, Alarm,
           Coherent, Undisturbed;
      NothingRead(journal, f.path);
      SkippedRows(f, v);
    }

    lemma OrdinaryRows(f: FileState, v: Visit)
      requires SealRead(f.path, f.saved) && f.path == v.path && f.locked == Locked(env, v.path)
      ensures Ordinary(env, v) ==> v.path !in env.world.exempt && !IsSealed(f)
    {
    }

    lemma DecidedRows(f: FileState, v: Visit, plan: Plan)
      requires Inv() && Loaded(f) && Prepared(f, v, plan)
      requires f.ignored == (IsIgnored(env.cfg, f.path) == Some(true) && !f.locked)
      requires f.readable == (!f.ignored && v.access == Allowed)
      requires f.saved.wasInDb && f.locked ==> v.access == Allowed
      ensures Eligible(f, v)
    {
      OrdinaryRows(f, v);
    }

    /** Everything that follows the classification of a path. */
    method Dispatch(f: FileState, v: Visit, status0: Return) returns (status: Return, go: bool)
      requires Inv() && Coherent(env, v) && Loaded(f) && Calm(status0) && f.Untouched()
      requires f.path == v.path && f.path in turn.current && f.stat == v.stat && f.locked == Locked(env, v.path)
      requires f.ignored == (IsIgnored(env.cfg, f.path) == Some(true) && !f.locked)
      requires f.readable == (!f.ignored && v.access == Allowed)
      requires f.saved.wasInDb && f.locked ==> v.access == Allowed
      requires Rested(f.path)
      modifies this`active, this`startedNs, this`now, this`interrupted, this`journal, this`readings,
               this`broken, db, f
      ensures Inv() && old(now) <= now && Signalled() && old(db.log) <= db.log
      ensures broken ==> old(broken) || (f.hashInterrupted && interrupted)
      ensures Onward() && (go ==> Idle(journal))
      ensures f.readable == old(f.readable)
      ensures env.cfg.dryRun ==> db.log == old(db.log)
      ensures f.saved == old(f.saved) && f.unavailable == old(f.unavailable)
      ensures go ==> Calm(status) && (Healthy() ==> old(Healthy()) && db.epoch == old(db.epoch))
      ensures !go ==> Failed(status) && MayFail(env)
      ensures Result(f, v, go, old(db.view), old(f.id), old(SealedRow(f, v)))
    {
      hide MayFail, Inv, Noted, Recorded, Entries, Position, Unread, Troubled, MakePlan, DigestOf, HasPath,
           IsSealed, Prepared, Verified, Covered, Loaded, IsIgnored, Coherent;
      hide SealedRow, Ordinary, Eligible, Undisturbed, Alarm, Examined, Further, Identical, Result;
      hide SavedSound, SealRead, Start, ContextOf;
      status, go := status0, true;
      var plan, next := Decide(f, v);
      if next != Go {
        SkippedResult(f, v);
        return;
      }
      DecidedRows(f, v, plan);
      status, go := Finish(f, v, plan, status);
    }

    lemma SealsStand()
      requires Inv()
      ensures Guarded(env, db.view) && Guarded(env, db.durable)
      ensures !broken ==> Intact(env, db.view) && Intact(env, db.durable)
    {
      assert db.log[|db.log| - 1] == Snapshot(db.durable, db.view, db.epoch);
    }

    /** What is now in the view, and what is durable, differs from one of two tables in the row of `p` at most. */
    ghost predicate OnlyRow(p: Path, view: Table, durable: Table)
      reads db`view, db`durable
    {
      && (SameOutside(view, db.view, {p}) || SameOutside(durable, db.view, {p}))
      && (SameOutside(view, db.durable, {p}) || SameOutside(durable, db.durable, {p}))
    }

    lemma TurnStands(p: Path)
      requires Inv() && turn.current == {p}
      ensures OnlyRow(p, turn.view, turn.durable)
    {
    }

    lemma UnreadYet(p: Path)
      requires Recorded() && p !in turn.taken
      ensures Unread(journal, p)
    {
    }

    ghost method TakeUp(p: Path)
      requires Inv() && p in env.stats
      modifies this`turn
      ensures Inv() && (old(Recorded()) ==> Recorded()) &&
                turn == Turn(old(turn.start), old(turn.taken) + {p}, {p}, db.view, db.durable)
    {
      hide LogOK, Intact, Guarded;
      turn := Turn(turn.start, turn.taken + {p}, {p}, db.view, db.durable);
    }

    lemma WasInDb(saved: SavedRow, v: Visit)
      ensures Alarm(env, saved, v) ==> saved.wasInDb
      ensures saved.wasInDb && Locked(env, v.path) && v.access != Allowed ==> Alarm(env, saved, v)
    {
    }

    lemma AlarmingAt(t: Table, id: RowId, v: Visit)
      requires id in t && t[id].path == v.path && Alarm(env, Decode(t[id]), v)
      ensures Alarming(env, t, v)
    {
    }

    lemma AlarmLoaded(f: FileState, v: Visit)
      requires Inv() && Loaded(f) && f.path == v.path
      ensures Alarm(env, f.saved, v) <==> Alarming(env, db.view, v)
    {
      hide Alarm;
      if Alarm(env, f.saved, v) {
        WasInDb(f.saved, v);
        AlarmingAt(db.view, f.id, v);
      }
      forall id | id in db.view && db.view[id].path == v.path && Alarm(env, Decode(db.view[id]), v)
        ensures Alarm(env, f.saved, v)
      {
        HasPathAt(db.view, id);
        LoadedPath(f);
        SamePath(db.view, f.id, id);
      }
    }

    predicate Included(v: Visit) {
      && env.cfg.includes(v.path) == Hit && v.access == Allowed
      && v.path !in env.world.exempt && v.path !in env.seals
    }

    predicate OnlyIgnored(v: Visit) {
      env.cfg.includes(v.path) == Miss && env.cfg.ignores(v.path) == Hit && env.cfg.locks(v.path) != Hit
    }

    lemma FilterFacts(v: Visit)
      ensures (Included(v) ==> Ordinary(env, v)) && (OnlyIgnored(v) ==> !Visible(env, v))
    {
      if Included(v) { IncludedIsOrdinary(env, v); }
      if OnlyIgnored(v) { IgnoredIsInvisible(env, v); }
    }

    /** Open the file and take it up. */
    method Begin(v: Visit) returns (status: Return, next: Next, f: FileState)
      requires Inv() && Recorded() && !broken && v.path !in turn.taken && Coherent(env, v)
      modifies this`interrupted, this`turn
      ensures fresh(f) && Inv() && Recorded() && Signalled() && Unread(journal, v.path)
      ensures turn == Turn(old(turn.start), old(turn.taken) + {v.path}, {v.path}, db.view, db.durable)
      ensures f.path == v.path && f.stat == v.stat && f.Untouched()
      ensures next == Stop ==>
                status != SUCCESS && !status.warning && (status.failure || interrupted) &&
                    (status.failure ==> MayFail(env))
      ensures next != Stop ==> Calm(status) && Loaded(f) && f.locked == Locked(env, v.path)
      ensures next != Stop ==>
                (f.saved.wasInDb <==> HasPath(db.view, v.path)) &&
                    (Alarm(env, f.saved, v) <==> Alarming(env, db.view, v))
      ensures (next == Go ==> f.readable == Visible(env, v)) && (next == Skip ==> !Ordinary(env, v))
      ensures next == Skip ==> f.unavailable && Alarm(env, f.saved, v) && v.access != Allowed
      ensures next == Go ==>
                && !f.unavailable
                && f.ignored == (IsIgnored(env.cfg, f.path) == Some(true) && !f.locked)
                && f.readable == (!f.ignored && v.access == Allowed)
                && (f.saved.wasInDb && f.locked ==> v.access == Allowed)
      ensures next == Go ==> forall id :: id in db.view && SealedFor(db.view[id], v) ==> f.id == id && SealedRow(f, v)
      ensures next == Skip ==> forall id :: id in db.view ==> !SealedFor(db.view[id], v)
    {
      hide Inv, Noted, Unread, HasPath, IsSealed, Loaded, SealedRow, SealedFor, MakePlan, Alarm, Alarming,
           IsIgnored;
      UnreadYet(v.path);
      status, next, f := Open(v);
      TakeUp(v.path);
      if next != Stop {
        LoadedPath(f);
        AlarmLoaded(f, v);
        WasInDb(f.saved, v);
        forall id | id in db.view && SealedFor(db.view[id], v) ensures next == Go && f.id == id && SealedRow(f, v) {
          LoadedSeal(f, v, id);
        }
      }
    }

    method ProcessFile(v: Visit) returns (status: Return, go: bool, f: FileState)
      requires Inv() && !broken && v.path !in turn.taken && Coherent(env, v)
      requires Recorded() && Idle(journal)
      modifies this`active, this`startedNs, this`now, this`interrupted, this`journal, this`readings,
               this`broken, this`turn, db
      ensures turn.start == old(turn.start) && turn.taken == old(turn.taken) + {v.path}
      ensures fresh(f) && Inv() && old(now) <= now && Signalled() && old(db.log) <= db.log
      ensures f.path == v.path && f.stat == v.stat
      ensures Onward()
      ensures if status.failure then MayFail(env) else Idle(journal)
      ensures go && f.readError ==> Troubled(journal, f.path)
      ensures env.cfg.dryRun ==> db.log == old(db.log)
      ensures go ==> Calm(status)
      ensures !status.failure && Healthy() ==> old(Healthy()) && db.epoch == old(db.epoch)
      ensures !go ==> status != SUCCESS && !status.warning && (status.failure || interrupted)
      // Whatever happens, only an interruption in the middle of a file leaves a seal unfinished, and
      // no row of a sealed path is finished with another digest.
      ensures Guarded(env, db.view) && Guarded(env, db.durable)
      ensures broken ==> f.hashInterrupted && interrupted
      ensures !broken ==> Intact(env, db.view) && Intact(env, db.durable)
      // Every ordinary file ends up covered by a true and complete row.
      ensures go && Undisturbed(f) && Ordinary(env, v) ==> Covered(env, db.view, v)
      // An include pattern overrides every ignore pattern; a path that is only ignored is left alone.
      ensures go && Undisturbed(f) && Included(v) ==> Covered(env, db.view, v)
      ensures !status.failure && Healthy() && OnlyIgnored(v) ==> db.view == old(db.view)
      // What an interruption leaves of an ordinary file is saved up to the byte reached.
      ensures !status.failure ==> Stored(f, v)
      ensures go ==> (f.hashInterrupted ==> interrupted && f.offset > 0)
      ensures go && Ordinary(env, v) && !f.readError && !env.cfg.dryRun && f.offset > 0 ==> f.hashInterrupted
      // If reading stopped inside the file, the row ends exactly there.
      ensures !status.failure && Healthy() && !(go && f.readError) ==> Halfway(v, db.view)
      ensures !status.failure && Healthy() && !Visible(env, v) ==> db.view == old(db.view)
      ensures !go && !status.failure ==> db.view == old(db.view) && db.durable == old(db.durable)
      // A sealed row under --rehash-locked.
      ensures forall id ::
                id in old(db.view) && SealedFor(old(db.view)[id], v) && go && Healthy() && !f.readError ==>
                  id in db.view && Examined(old(db.view)[id], db.view[id], v, f)
      // Whatever happens, only the row of this path changes.
      ensures OnlyRow(v.path, old(db.view), old(db.durable))
      // A file is flagged exactly when its row calls for it.
      ensures go && !interrupted && !f.readError ==>
                (f.unavailable || f.violation || f.mismatch <==> Alarming(env, old(db.view), v))
      // The report names an insertion exactly when the path was absent.
      ensures f.inserted ==> !HasPath(old(db.view), v.path) && !f.updated
      ensures f.updated ==> HasPath(old(db.view), v.path)
      ensures go && Undisturbed(f) && !HasPath(old(db.view), v.path) && HasPath(db.view, v.path) ==> f.inserted
    {
      hide Included, OnlyIgnored, MayFail, Visible, Ordinary, Merge, OnlyRow, Recorded, Halfway, Inv, Noted,
           Entries, Idle, Position, Unread, Troubled, DigestOf, HasPath, IsSealed, Examined, Covered, Loaded,
           SealedRow, SealedFor, MakePlan, Guarded, Intact;
      hide Alarm, Alarming, Undisturbed, SameOutside, IsIgnored;
      var next;
      status, next, f := Begin(v);
      go := next != Stop;
      FilterFacts(v);
      UnreadHalfway(v, db.view);
      if next == Go {
        status, go := Dispatch(f, v, status);
        if go && Healthy() && !f.readError {
          HalfwayAt(f, v);
        }
      } else {
        assert !Further(f) && !Reported(f);
      }
      SealsStand();
      TurnStands(v.path);
    }

    // ----- The traversal -----

    /** Once a row covers an ordinary file, later writes of the same traversal keep it so. */
    lemma CoveredStep(v: Visit, t: Table, t': Table)
      requires TableStep(env, t, t') && TableSound(env.world, t') && Ordinary(env, v) && Coherent(env, v) &&
                 Covered(env, t, v)
      ensures Covered(env, t', v)
    {
      hide DigestOf, ContextOf;
      var id :| id in t && CoveredBy(env, t[id], v);
      assert RowStep(env, t[id], t'[id]);
      SoundRow(env.world, t', id);
      SameContent(v, t'[id].stat);
    }

    ghost predicate AllCovered(visits: seq<Visit>, errors: set<Path>, t: Table) {
      forall j :: 0 <= j < |visits| && Ordinary(env, visits[j]) && visits[j].path !in errors ==>
          Covered(env, t, visits[j])
    }

    lemma AllCoveredStep(visits: seq<Visit>, errors: set<Path>, n: nat, m: nat)
      requires Inv() && n <= m < |db.log| && db.log[n].epoch == db.log[m].epoch
      requires forall j :: 0 <= j < |visits| ==> Coherent(env, visits[j])
      requires AllCovered(visits, errors, db.log[n].view)
      ensures AllCovered(visits, errors, db.log[m].view)
    {
      hide Covered, Coherent, Ordinary;
      assert TableStep(env, db.log[n].view, db.log[m].view) && TableSound(env.world, db.log[m].view);
      forall j | 0 <= j < |visits| && Ordinary(env, visits[j]) && visits[j].path !in errors
        ensures Covered(env, db.log[m].view, visits[j])
      {
        CoveredStep(visits[j], db.log[n].view, db.log[m].view);
      }
    }

    ghost predicate PathsAmong(ps: set<Path>, visits: seq<Visit>) {
      forall p :: p in ps ==> exists j :: 0 <= j < |visits| && visits[j].path == p
    }

    lemma NotMet(visits: seq<Visit>, n: nat, ps: set<Path>)
      requires n < |visits| && PathsDiffer(visits) && PathsAmong(ps, visits[..n])
      ensures visits[n].path !in ps
      ensures forall j :: 0 <= j < n ==> visits[..n][j].path != visits[n].path
    {
    }

    lemma MetStep(visits: seq<Visit>, n: nat, ps: set<Path>, more: set<Path>)
      requires n < |visits| && PathsAmong(ps, visits[..n]) && more <= ps + {visits[n].path}
      ensures PathsAmong(more, visits[..n + 1])
    {
      var all := visits[..n + 1];
      forall p | p in more ensures exists j :: 0 <= j < |all| && all[j].path == p {
        if p == visits[n].path {
          assert all[n].path == p;
        } else {
          var j :| 0 <= j < |visits[..n]| && visits[..n][j].path == p;
          assert all[j].path == p;
        }
      }
    }

    lemma AlarmsStep(visits: seq<Visit>, v: Visit, errors: set<Path>, more: set<Path>, t: Table)
      requires more <= {v.path} && forall j :: 0 <= j < |visits| ==> visits[j].path != v.path
      ensures Alarms(env, visits + [v], errors + more, t) <==>
                Alarms(env, visits, errors, t) || (v.path !in errors + more && Alarming(env, t, v))
    {
      hide Alarming;
      var all := visits + [v];
      assert all[|visits|] == v;
      forall j | 0 <= j < |visits|
        ensures all[j] == visits[j] && (visits[j].path in errors + more <==> visits[j].path in errors)
      {
      }
      if Alarms(env, visits, errors, t) {
        var j :| 0 <= j < |visits| && visits[j].path !in errors && Alarming(env, t, visits[j]);
        assert all[j] == visits[j];
      }
    }

    /** The file is still as the run found it. */
    lemma AlarmUntaken(v: Visit)
      requires Inv() && v.path !in turn.taken
      ensures Alarming(env, db.view, v) <==> Alarming(env, turn.start, v)
    {
      hide Alarm;
    }

    /** The batch check before an entry. */
    method CheckBatch(ghost p: Path) returns (status: Return)
      requires Inv() && Recorded() && Unread(journal, p)
      requires if active then Due(journal, p, 0, |readings|) else Idle(journal)
      modifies this`active, this`now, this`interrupted, this`journal, this`readings, db
      ensures Inv() && old(now) <= now && Signalled() && old(db.log) <= db.log
      ensures env.cfg.dryRun ==> db.log == old(db.log)
      ensures Calm(status) || Failed(status)
      ensures !status.failure && Healthy() ==> old(Healthy()) && db.epoch == old(db.epoch)
      // The clock is read anew, and by that reading the batch is younger than the interval.
      ensures Onward() && if status.failure then MayFail(env) else Idle(journal)
      ensures Unread(journal, p)
    {
      hide LogOK, Intact, TurnProper, InTurn, SealsProper, UniquePaths, Noted, Position, Entries, Unread;
      status := SUCCESS;
      if active {
        var nowNs := Clock();
        var r := TransactionCheck(nowNs);
        status := Merged(status, r);
        if !status.failure {
          NoteLook(Look(p, 0, nowNs, active, startedNs, 0, false));
        }
      }
    }

    /** Take up an entry: the batch is checked before anything else happens. */
    method EnterNext(v: Visit, ghost before: seq<Visit>, ghost errors: set<Path>) returns (status: Return)
      requires Inv() && Recorded() && Idle(journal) && v.path !in turn.taken
      requires forall j :: 0 <= j < |before| ==> Coherent(env, before[j])
      requires Healthy() && !env.cfg.dryRun ==> AllCovered(before, errors, db.view)
      modifies this`active, this`now, this`interrupted, this`journal, this`readings, db
      ensures Inv() && old(now) <= now && Signalled() && old(db.log) <= db.log
      ensures env.cfg.dryRun ==> db.log == old(db.log)
      ensures Calm(status) || Failed(status)
      ensures !status.failure && Healthy() ==> old(Healthy()) && db.epoch == old(db.epoch)
      ensures !status.failure && Healthy() && !env.cfg.dryRun ==> AllCovered(before, errors, db.view)
      ensures Recorded() && if status.failure then MayFail(env) else Idle(journal)
      ensures old(journal) <= journal && Entries(journal) == Entries(old(journal)) + [v.path] && Unread(journal, v.path)
    {
      hide MayFail, Inv, Noted, Position, Entries, Idle, Troubled, Unread, Covered, Coherent, Ordinary;
      AtRest();
      ghost var n := |db.log| - 1;
      UnreadYet(v.path);
      Note(Entry(v.path, active, |readings|));
      status := CheckBatch(v.path);
      AtRest();
      if !status.failure && Healthy() && !env.cfg.dryRun {
        AllCoveredStep(before, errors, n, |db.log| - 1);
      }
    }

    /** One turn of the traversal loop: the deadline of the batch, then the next file. */
    method Visiting(v: Visit, ghost before: seq<Visit>, ghost errors: set<Path>)
      returns (status: Return, go: bool, f: FileState)
      requires Inv() && Recorded() && Idle(journal) && !broken && v.path !in turn.taken
      requires Coherent(env, v) && forall j :: 0 <= j < |before| ==> Coherent(env, before[j])
      requires Healthy() && !env.cfg.dryRun ==> AllCovered(before, errors, db.view)
      modifies this`active, this`startedNs, this`now, this`interrupted, this`journal, this`readings,
               this`broken, this`turn, db
      ensures Inv() && Signalled() && old(db.log) <= db.log && f.path == v.path &&
                f.stat == v.stat
      ensures Entries(journal) == Entries(old(journal)) + [v.path] && old(journal) <= journal
      ensures Recorded() && if status.failure then MayFail(env) else Idle(journal)
      ensures go && f.readError ==> Troubled(journal, v.path)
      ensures turn.start == old(turn.start) && turn.taken <= old(turn.taken) + {v.path}
      ensures broken ==> interrupted
      ensures env.cfg.dryRun ==> db.log == old(db.log)
      ensures go ==> Calm(status)
      ensures !go ==> status != SUCCESS && !status.warning && (status.failure || interrupted)
      ensures !status.failure && Healthy() ==> old(Healthy()) && db.epoch == old(db.epoch)
      // The files before it stay covered, even when this one is interrupted.
      ensures !status.failure && Healthy() && !env.cfg.dryRun ==> AllCovered(before, errors, db.view)
      ensures go && Healthy() && !interrupted && !env.cfg.dryRun ==>
                AllCovered(before + [v], if f.readError then errors + {f.path} else errors, db.view)
      ensures !status.failure ==> Stored(f, v)
      ensures !status.failure && Healthy() && !(go && f.readError) ==> Halfway(v, db.view)
      ensures go && !interrupted && !f.readError ==>
                (f.unavailable || f.violation || f.mismatch <==> Alarming(env, turn.start, v))
    {
      hide MayFail, Halfway, Visible, Inv, Noted, Position, Entries, Idle, Troubled, Unread, Covered, Coherent,
           Ordinary, SealedFor, Examined, HasPath, Guarded;
      hide SameOutside, Alarming, Further, Recorded;
      go := false;
      status := EnterNext(v, before, errors);
      if status.failure {
        f := new FileState(v.path, v.stat);
        return;
      }
      AtRest();
      ghost var n := |db.log| - 1;
      AlarmUntaken(v);
      status, go, f := ProcessFile(v);
      if go {
        Disturb();  // reporting writes through the same connection
      }
      AtRest();
      if !status.failure && Healthy() && !env.cfg.dryRun {
        AllCoveredStep(before, errors, n, |db.log| - 1);
      }
    }

    /** Commit what is pending unless the traversal failed, and roll back whatever is left. */
    method Settle(status0: Return) returns (status: Return)
      requires Inv() && Recorded() && (status0.failure ==> MayFail(env)) && !status0.warning &&
                 (status0.failure || Calm(status0) || interrupted)
      modifies this`active, this`interrupted, this`readings, db
      ensures Inv() && Signalled() && old(db.log) <= db.log
      ensures Recorded() && (status.failure ==> MayFail(env))
      ensures env.cfg.dryRun ==> db.log == old(db.log)
      ensures !status.failure ==>
                && !status0.failure && old(Healthy()) && !active && !db.open && db.durable == db.view == old(db.view)
                && db.epoch == old(db.epoch)
      ensures !status.failure && !interrupted ==> status == status0 == SUCCESS
    {
      hide LogOK, Noted, Intact, TurnProper, InTurn;
      status := status0;
      if !status.failure {
        var r := TransactionCommit();
        status := Merged(status, r);
      }
      var r := TransactionRollback();
      status := Merged(status, r);
    }

    /** Every table that was ever in the view has its rows in `t`, by allowed changes alone. */
    ghost predicate AllSaved(l: seq<Snapshot>, t: Table)
      reads db`log
    {
      forall i :: 0 <= |l| - 1 <= i < |db.log| ==> TableStep(env, db.log[i].view, t)
    }

    /** Without a rollback every view of the log leads to the last one. */
    lemma NothingLost(l: seq<Snapshot>)
      requires Inv() && l != [] && l <= db.log && l[|l| - 1].epoch == db.epoch
      ensures AllSaved(l, db.view)
    {
      hide Intact, Guarded;
      forall i | |l| - 1 <= i < |db.log| ensures TableStep(env, db.log[i].view, db.view) {
        assert db.log[|l| - 1] == l[|l| - 1];
        assert db.log[|l| - 1].epoch <= db.log[i].epoch <= db.log[|db.log| - 1].epoch;
      }
    }

    /** Nothing has been taken up yet. */
    lemma FirstTurn()
      requires Inv() && turn.taken == {}
      ensures db.view == turn.start && db.durable == turn.start && !Alarms(env, [], {}, turn.start)
      ensures PathsAmong(turn.taken + {}, [])
    {
      SameEverywhere(turn.start, db.view);
      SameEverywhere(turn.start, db.durable);
    }

    /** The warning about locked files comes last, and only on success. */
    method Verdict(status0: Return, violated: bool) returns (status: Return)
      requires status0.failure || status0 == SUCCESS || interrupted
      modifies this`interrupted
      ensures Signalled() && status.failure == status0.failure
      ensures !status.failure && !interrupted ==> status == if violated then WARNING else SUCCESS
    {
      status := status0;
      if violated && status == SUCCESS {
        status := WARNING;
      }
      status := Provide(status);
    }

    function PathsOf(visits: seq<Visit>): seq<Path> {
      seq(|visits|, i requires 0 <= i < |visits| => visits[i].path)
    }

    /** The files taken up are the first `n`, and those in `errors` could not be read. */
    ghost predicate Logged(j: Events, visits: seq<Visit>, n: nat, errors: set<Path>)
      requires n <= |visits|
    {
      Entries(j) == PathsOf(visits[..n]) && forall p :: p in errors ==> Troubled(j, p)
    }

    lemma LoggedAtFirst(visits: seq<Visit>)
      ensures Logged([], visits, 0, {}) && Idle([])
    {
    }

    lemma LoggedNext(was: Events, j: Events, visits: seq<Visit>, n: nat, errors: set<Path>, failed: set<Path>)
      requires n < |visits| && Logged(was, visits, n, errors) && was <= j
      requires Entries(j) == Entries(was) + [visits[n].path]
      requires forall p :: p in failed ==> Troubled(j, p)
      ensures Logged(j, visits, n + 1, errors + failed)
    {
      hide Entries;
      assert PathsOf(visits[..n + 1]) == PathsOf(visits[..n]) + [visits[n].path];
    }

    /** If reading stopped inside an ordinary file, its row ends exactly there. */
    ghost predicate Halfway(v: Visit, t: Table)
      reads this`journal
    {
      Ordinary(env, v) && !env.cfg.dryRun && 0 < Position(journal, v.path) < |v.content| ==>
        RowEnds(t, v, Position(journal, v.path))
    }

    ghost predicate RowEnds(t: Table, v: Visit, n: nat) {
      exists id :: id in t && t[id].path == v.path && t[id].stat == v.stat && t[id].offset == Some(n)
    }

    /** How far the traversal has come: the files finished, and the one in which it was interrupted. */
    ghost predicate Reached(
        visits: seq<Visit>, status: Return, errors: set<Path>, reached: nat, done: nat, last: FileState?)
      reads this`active, this`interrupted, this`journal, db`open, db`view, last
    {
      && done <= reached <= |visits|
      && (!status.failure ==> reached <= done + 1 && (!interrupted ==> done == reached))
      && (!status.failure && Healthy() && !env.cfg.dryRun ==> AllCovered(visits[..done], errors, db.view))
      && (done < reached ==>
            && last != null && last.path == visits[done].path && last.stat == visits[done].stat
            && (!status.failure ==> Stored(last, visits[done]))
            && (!status.failure && Healthy() && visits[done].path !in errors ==> Halfway(visits[done], db.view)))
    }

    lemma JournalStands()
      requires Recorded()
      ensures Attended(journal, readings) && Prompt(journal)
      ensures forall p :: Troubled(journal, p) ==> MayFail(env)
    {
    }

    lemma HalfwayAt(f: FileState, v: Visit)
      requires Stored(f, v) && Marked(f, v) && Healthy() && !f.readError && f.path == v.path && f.stat == v.stat
      ensures Halfway(v, db.view)
    {
      hide Ordinary, Further, Position;
      if Ordinary(env, v) && !env.cfg.dryRun && 0 < Position(journal, v.path) < |v.content| {
        RowEndsAt(db.view, f.id, v, f.offset);
      }
    }

    lemma RowEndsAt(t: Table, id: RowId, v: Visit, n: nat)
      requires id in t && t[id].path == v.path && t[id].stat == v.stat && t[id].offset == Some(n)
      ensures RowEnds(t, v, n)
    {
    }

    lemma UnreadHalfway(v: Visit, t: Table)
      requires Unread(journal, v.path)
      ensures Halfway(v, t)
    {
      NothingRead(journal, v.path);
    }

    /** The loop over the files. */
    method Pass(visits: seq<Visit>)
      returns (status: Return, errors: set<Path>, reached: nat, violated: bool, ghost done: nat, ghost last: FileState?)
      requires Inv() && Recorded() && journal == [] && !active && (broken ==> interrupted) && turn.taken == {}
      requires forall j :: 0 <= j < |visits| ==> Coherent(env, visits[j])
      requires PathsDiffer(visits)
      modifies this`active, this`startedNs, this`now, this`interrupted, this`journal, this`readings,
               this`broken, this`turn, db
      ensures Inv() && Signalled() && old(db.log) <= db.log
      ensures broken ==> interrupted
      ensures Recorded() && if status.failure then MayFail(env) else Idle(journal)
      ensures env.cfg.dryRun ==> db.log == old(db.log)
      ensures status.failure || Calm(status) || interrupted
      ensures !status.warning && (!status.failure && !interrupted ==> reached == |visits|)
      ensures !status.failure && Healthy() ==> db.epoch == old(db.epoch)
      ensures Reached(visits, status, errors, reached, done, last) && Logged(journal, visits, reached, errors)
      ensures !status.failure && !interrupted ==> (violated <==> Alarms(env, visits, errors, old(db.view)))
    {
      hide MayFail, LogOK, Noted, Position, Entries, Idle, Troubled, Halfway, Logged, Covered, Coherent, Ordinary,
           Intact, TurnProper, InTurn, Guarded, SealsProper, Alarming, Alarms, Identical;
      hide PathsAmong, PathsDiffer, Stored;
      status, errors, reached, done := SUCCESS, {}, 0, 0;
      last := null;
      FirstTurn();
      LoggedAtFirst(visits);
      assert visits[..0] == [] && visits[..|visits|] == visits;
      var go := true;
      violated := false;
      while reached < |visits| && go
        invariant done <= reached <= |visits|
        invariant Inv() && Signalled() && old(db.log) <= db.log
        invariant broken ==> interrupted
        invariant Recorded() && if status.failure then MayFail(env) else Idle(journal)
        invariant turn.start == old(db.view) && PathsAmong(turn.taken + errors, visits[..reached])
        invariant env.cfg.dryRun ==> db.log == old(db.log)
        invariant go ==> Calm(status)
        invariant !go ==> status != SUCCESS && !status.warning && (status.failure || interrupted)
        invariant !status.failure && Healthy() ==> db.epoch == old(db.epoch)
        invariant Reached(visits, status, errors, reached, done, last) && Logged(journal, visits, reached, errors)
        invariant go && !interrupted ==> (violated <==> Alarms(env, visits[..reached], errors, turn.start))
      {
        Poll();
        if interrupted {
          break;
        }
        var f;
        ghost var before, errorsBefore, met, was := visits[..reached], errors, turn.taken + errors, journal;
        NotMet(visits, reached, met);
        status, go, f := Visiting(visits[reached], visits[..reached], errors);
        if go && f.readError {
          errors := errors + {f.path};
        } else if go && (f.unavailable || f.violation || f.mismatch) {
          violated := true;
        }
        assert visits[..reached + 1] == before + [visits[reached]];
        MetStep(visits, reached, met, turn.taken + errors);
        ghost var failed := if go && f.readError then {f.path} else {};
        assert errors == errorsBefore + failed;
        LoggedNext(was, journal, visits, reached, errorsBefore, failed);
        AlarmsStep(before, visits[reached], errorsBefore, failed, turn.start);
        last, reached := f, reached + 1;
        if go && !interrupted {
          done := reached;
        }
      }
    }

    /** `file_list`: the content pass over one root. `errors` collects the files that could not be read;
        `done` counts the files finished before an interruption was noticed, and `last` is the file it met. */
    method FileList(visits: seq<Visit>)
      returns (status: Return, errors: set<Path>, reached: nat, ghost done: nat, ghost last: FileState?)
      requires Inv() && Recorded() && journal == [] && !active && (broken ==> interrupted) && turn.taken == {}
      requires forall j :: 0 <= j < |visits| ==> Coherent(env, visits[j])
      // One traversal hands over no path twice (`Traversal.EachPathOnce`).
      requires PathsDiffer(visits)
      modifies this`active, this`startedNs, this`now, this`interrupted, this`journal, this`readings,
               this`broken, this`turn, db
      ensures Inv() && Signalled() && old(db.log) <= db.log
      ensures broken ==> interrupted
      ensures env.cfg.dryRun ==> db.log == old(db.log)
      // Whatever happened, the durable table is that of the last successful commit.
      ensures db.durable == db.committed
      // Without a failure, interruption included, every save is durable.
      ensures !status.failure ==> !active && !db.open && db.view == db.durable && db.epoch == old(db.epoch)
      ensures !status.failure ==> AllSaved(old(db.log), db.durable)
      // The files finished before an interruption have true and complete rows; at most one more was taken up.
      ensures done <= reached <= |visits|
      ensures !status.failure ==> reached <= done + 1 && (!interrupted ==> done == |visits|)
      ensures !status.failure && !env.cfg.dryRun ==> AllCovered(visits[..done], errors, db.durable)
      // The file in which an interruption fell has a durable row up to the byte reached.
      ensures done < reached ==> last != null && last.path == visits[done].path && last.stat == visits[done].stat
      ensures !status.failure && done < reached && Ordinary(env, visits[done]) && Further(last) ==>
                last.id in db.durable && db.durable[last.id] == last.AsRow()
      // The journal: which files were taken up and which could not be read; every block, and every entry met by
      // an active batch, has its look; what was hashed an interval ago is durable; failures come from outside.
      ensures Entries(journal) == PathsOf(visits[..reached]) && forall p :: p in errors ==> Troubled(journal, p)
      ensures Attended(journal, readings) && Prompt(journal) && (!status.failure ==> Idle(journal))
      ensures status.failure || errors != {} ==> MayFail(env)
      ensures !status.failure && done < reached && visits[done].path !in errors ==> Halfway(visits[done], db.durable)
      ensures !status.failure && done < reached && Reported(last) && !env.cfg.dryRun ==>
                last.id in db.durable && db.durable[last.id] == last.AsRow()
      // A complete pass ends in a warning exactly when what it found about a locked file calls for one.
      ensures !status.failure && !interrupted ==>
                status == if Alarms(env, visits, errors, old(db.view)) then WARNING else SUCCESS
    {
      hide LogOK, Noted, Position, Entries, Idle, Troubled, MayFail, Covered, Coherent, Ordinary, Intact,
           TurnProper, InTurn, Guarded, SealsProper, Alarms, Identical;
      var violated;
      status, errors, reached, violated, done, last := Pass(visits);
      status := Settle(status);
      if !status.failure {
        NothingLost(old(db.log));
      }
      status := Verdict(status, violated);
      JournalStands();
    }
  }
}
