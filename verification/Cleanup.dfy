/** Removal of rows whose files are gone: db_delete_missing_metadata.c and
    db_delete_the_record_by_id.c. */
module Cleanup {
  import opened Common
  import opened Status
  import opened Store
  import opened Soundness
  import FileScan

  datatype Options = Options(
    compare: bool, update: bool, dropIgnored: bool, dropInaccessible: bool, ignoreGiven: bool, cfg: Config)

  /** What the file system answers while the cleanup runs. */
  datatype Disk = Disk(rootOpens: bool, access: Path -> Access)

  datatype Verdict = Keep | Delete | Abort

  /** The decision for one row. The lock patterns are asked only where their answer matters. */
  function Judge(o: Options, disk: Disk, p: Path): Verdict {
    var ignored := if o.ignoreGiven then FileScan.IsIgnored(o.cfg, p) else Some(false);
    var unlessLocked := (v: Verdict) =>
      match o.cfg.locks(p)
      case Broken => Abort
      case Hit => Keep
      case Miss => v;
    match ignored
    case None => Abort
    case Some(true) => unlessLocked(if o.dropIgnored then Delete else Keep)
    case Some(false) =>
      match disk.access(p)
      case Allowed => Keep
      case NotFound => unlessLocked(Delete)
      case _ => unlessLocked(if o.dropInaccessible then Delete else Keep)
  }

  /** The documented reasons for a row to stay. */
  predicate Survives(o: Options, disk: Disk, p: Path) {
    var ignored := o.ignoreGiven && FileScan.IsIgnored(o.cfg, p) == Some(true);
    || o.cfg.locks(p) == Hit
    || (ignored && !o.dropIgnored)
    || (!ignored && (disk.access(p) == Allowed || (disk.access(p) != NotFound && !o.dropInaccessible)))
  }

  lemma JudgeKeepsSurvivors(o: Options, disk: Disk, p: Path)
    requires Judge(o, disk, p) != Abort
    ensures Judge(o, disk, p) == Keep <==> Survives(o, disk, p)
  {
  }

  /** The cleanup in terms of the patterns: a path that can be accessed stays when an include pattern hits
      it, whatever the ignore patterns say, and when nothing hits it; one that is only ignored goes
      exactly with --drop-ignored; one that is gone goes unless it is locked or only ignored. */
  lemma JudgeByPatterns(o: Options, disk: Disk, p: Path)
    requires o.ignoreGiven && o.cfg.includes(p) != Broken && o.cfg.ignores(p) != Broken
    ensures o.cfg.includes(p) == Hit && disk.access(p) == Allowed ==> Judge(o, disk, p) == Keep
    ensures o.cfg.includes(p) == Miss && o.cfg.ignores(p) == Miss && disk.access(p) == Allowed ==>
              Judge(o, disk, p) == Keep
    ensures o.cfg.includes(p) == Miss && o.cfg.ignores(p) == Hit && o.cfg.locks(p) == Miss ==>
              Judge(o, disk, p) == if o.dropIgnored then Delete else Keep
    ensures o.cfg.includes(p) == Hit && disk.access(p) == NotFound && o.cfg.locks(p) == Miss ==>
              Judge(o, disk, p) == Delete
    ensures o.cfg.includes(p) == Hit && disk.access(p) !in {Allowed, NotFound} && o.cfg.locks(p) == Miss ==>
              Judge(o, disk, p) == if o.dropInaccessible then Delete else Keep
    ensures o.cfg.locks(p) == Hit ==> Judge(o, disk, p) == Keep
  {
  }

  /** The rows of `t` among `ids` that are to go. */
  function Doomed(o: Options, disk: Disk, t: Table, ids: seq<RowId>): set<RowId> {
    set id | id in ids && id in t && Judge(o, disk, t[id].path) == Delete
  }

  predicate NoDuplicates(s: seq<RowId>) {
    forall i, j :: 0 <= i < j < |s| ==> s[i] != s[j]
  }

  class Cleaner {
    const o: Options
    const disk: Disk
    const fate: Fate
    const db: Database
    var interrupted: bool
    var modified: bool  // db_primary_file_modified

    constructor (o: Options, disk: Disk, fate: Fate, db: Database, interrupted: bool, modified: bool)
      ensures this.o == o && this.disk == disk && this.fate == fate && this.db == db
      ensures this.interrupted == interrupted && this.modified == modified
    {
      this.o, this.disk, this.fate, this.db := o, disk, fate, db;
      this.interrupted, this.modified := interrupted, modified;
    }

    /** The cleanup has something to fail on. */
    ghost predicate Blamable() {
      fate.faults || db.faults || !Compiles(o.cfg)
    }

    twostate predicate Signalled()
      reads this`interrupted
    {
      (old(interrupted) ==> interrupted) && (interrupted ==> old(interrupted) || fate.signals)
    }

    method Provide(s: Return) returns (r: Return)
      modifies this`interrupted
      ensures Signalled()
      ensures r == Normalize(s, interrupted)
    {
      var signal: bool := *;
      if signal && fate.signals {
        interrupted := true;
      }
      r := Normalize(s, interrupted);
    }

    predicate Calm(status: Return)
      reads this`interrupted
    {
      status == SUCCESS || (status == Normalize(SUCCESS, true) && interrupted)
    }

    /** Since the log was `l`, the durable table has always been `d`. */
    ghost predicate StillDurable(l: seq<Snapshot>, d: Table)
      reads db`log
    {
      l <= db.log && forall k :: |l| <= k < |db.log| ==> db.log[k].durable == d
    }

    /** `ask(path_check_locked_checksum(...))` on a status that skips nothing. */
    method AskLocked(p: Path) returns (locked: bool, status: Return)
      modifies this`interrupted
      ensures status.failure ==> Blamable()
      ensures Signalled()
      ensures if o.cfg.locks(p) == Broken then status.failure && !status.success && !status.warning && !locked
              else Calm(status) && locked == (o.cfg.locks(p) == Hit)
    {
      status := Provide(if o.cfg.locks(p) == Broken then FAILURE else SUCCESS);
      locked := o.cfg.locks(p) == Hit;
      var again := Provide(SUCCESS);
      status := Merge(again, status, interrupted);
    }

    /** The checks made for one row, in their order, with the interruptions between them. */
    method Decide(p: Path) returns (verdict: Verdict, status: Return)
      modifies this`interrupted
      ensures status.failure ==> Blamable()
      ensures Signalled()
      ensures verdict == Abort ==>
                status != SUCCESS && ((status.failure && !status.success && !status.warning) || Calm(status))
      ensures verdict == Keep ==> Judge(o, disk, p) == Keep && Calm(status)
      ensures verdict == Delete ==> Judge(o, disk, p) == Delete && status == SUCCESS
    {
      verdict, status := Abort, SUCCESS;
      var ignored := false;
      if o.ignoreGiven {
        var answer := FileScan.IsIgnored(o.cfg, p);
        status := Provide(if answer == None then FAILURE else SUCCESS);
        if status != SUCCESS {
          return;
        }
        ignored := answer.value;
      }
      if !ignored && disk.access(p) == Allowed {
        verdict := Keep;
        return;
      }
      var locked;
      locked, status := AskLocked(p);
      if locked {
        verdict := Keep;
        return;
      }
      if status != SUCCESS {
        return;
      }
      var drop := if ignored then o.dropIgnored else disk.access(p) == NotFound || o.dropInaccessible;
      verdict := if drop then Delete else Keep;
    }

    /** `db_delete_the_record_by_id`: a DELETE, or a probe of the row in a dry run. */
    method DeleteRecord(id: RowId) returns (status: Return)
      requires db.Valid() && (!o.cfg.dryRun ==> db.open)
      modifies this`interrupted, this`modified, db
      ensures status.failure ==> Blamable()
      ensures db.Valid() && db.looseWrites == old(db.looseWrites)
      ensures Signalled()
      ensures Calm(status) || (status.failure && !status.success && !status.warning)
      ensures db.durable == old(db.durable) && db.committed == old(db.committed)
      ensures StillDurable(old(db.log), db.durable)
      ensures o.cfg.dryRun ==> db.log == old(db.log) && db.open == old(db.open) && modified == old(modified)
      ensures !status.failure && !o.cfg.dryRun ==> db.open && db.view == old(db.view) - {id} && modified
      ensures old(modified) ==> modified
      ensures !db.open || db.view == old(db.view) || (modified && db.view == old(db.view) - {id})
    {
      if o.cfg.dryRun {
        var found: bool := *;
        found := found || !fate.faults;
        status := Provide(if found then SUCCESS else FAILURE);
        return;
      }
      var ok := db.Delete(id);
      if ok {
        modified := true;
      }
      status := Provide(if ok then SUCCESS else FAILURE);
    }

    /** `SELECT ID, relative_path FROM files`: every row once, in some order. */
    method SelectAll() returns (order: seq<RowId>)
      requires db.Valid()
      ensures NoDuplicates(order) && (forall id :: id in order <==> id in db.view)
    {
      order := [];
      var rest := db.view.Keys;
      while rest != {}
        invariant NoDuplicates(order)
        invariant rest <= db.view.Keys && forall id :: id in order <==> id in db.view && id !in rest
        decreases |rest|
      {
        ghost var some := Pick(rest);
        var id :| id in rest;
        order, rest := order + [id], rest - {id};
      }
    }

    /** The rows scanned so far have been dealt with, unless the transaction was rolled back. */
    ghost predicate Progress(t: Table, order: seq<RowId>, n: nat, dropped: set<RowId>)
      requires n <= |order|
      reads this`modified, db
    {
      && db.Valid() && db.looseWrites == 0 && db.durable == t
      && dropped == Doomed(o, disk, t, order[..n])
      && (forall i :: 0 <= i < n && order[i] in t ==> Judge(o, disk, t[order[i]].path) != Abort)
      && (!o.cfg.dryRun && db.open ==> db.view == t - dropped)
      && (o.cfg.dryRun ==> !db.open)
      && (!o.cfg.dryRun && dropped != {} ==> modified)
      && (!o.cfg.dryRun && !db.open ==> Blamable())
    }

    /** One row of the scan: decide, and delete unless the transaction is gone. */
    method SweepRow(t: Table, id: RowId) returns (status: Return, dealt: bool, deleted: bool)
      requires db.Valid() && db.looseWrites == 0 && db.durable == t && id in t && (o.cfg.dryRun ==> !db.open)
      requires !o.cfg.dryRun && !db.open ==> Blamable()
      modifies this`interrupted, this`modified, db
      ensures status.failure || (!o.cfg.dryRun && !db.open) ==> Blamable()
      ensures db.Valid() && db.looseWrites == 0 && db.durable == t && StillDurable(old(db.log), t)
      ensures Signalled() && (old(modified) ==> modified) && db.committed == old(db.committed)
      ensures o.cfg.dryRun ==> db.log == old(db.log) && db.open == old(db.open) && modified == old(modified)
      ensures Calm(status) || (status.failure && !status.success && !status.warning)
      ensures if dealt then !status.failure && Judge(o, disk, t[id].path) == (if deleted then Delete else Keep)
                else status != SUCCESS && !deleted
      ensures !status.failure && db.open ==>
                old(db.open) && db.view == if deleted && !o.cfg.dryRun then old(db.view) - {id} else old(db.view)
      ensures deleted && !o.cfg.dryRun ==> modified
    {
      hide Judge, UniquePaths;
      dealt, deleted := false, false;
      var verdict;
      verdict, status := Decide(t[id].path);
      if verdict == Abort {
        return;
      }
      if !o.cfg.dryRun {
        db.AutoRollback();  // reporting writes through the same connection
      }
      if verdict == Delete {
        if !o.cfg.dryRun && !db.open {
          status := FAILURE;
          return;
        }
        status := DeleteRecord(id);
        if status.failure {
          return;
        }
        deleted := true;
      }
      dealt := true;
    }

    lemma DoomedStep(t: Table, order: seq<RowId>, n: nat, deleted: bool)
      requires n < |order| && order[n] in t && Judge(o, disk, t[order[n]].path) == if deleted then Delete else Keep
      ensures Doomed(o, disk, t, order[..n + 1]) == Doomed(o, disk, t, order[..n]) + if deleted then {order[n]} else {}
    {
      assert order[..n + 1] == order[..n] + [order[n]];
    }

    /** The cursor loop. `scanned` rows have been dealt with when it ends. */
    method Sweep(t: Table, order: seq<RowId>) returns (status: Return, scanned: nat, dropped: set<RowId>)
      requires db.Valid() && db.looseWrites == 0 && db.durable == t && db.view == t && db.open == !o.cfg.dryRun
      requires NoDuplicates(order) && forall id :: id in order <==> id in t
      modifies this`interrupted, this`modified, db
      ensures status.failure ==> Blamable()
      ensures scanned <= |order| && db.Valid() && db.looseWrites == 0 && db.durable == t
      ensures StillDurable(old(db.log), t)
      ensures Signalled() && (old(modified) ==> modified) && db.committed == old(db.committed)
      ensures Calm(status) || (status.failure && !status.success && !status.warning)
      ensures o.cfg.dryRun ==> db.log == old(db.log) && db.open == old(db.open) && modified == old(modified)
      ensures !status.failure ==> Progress(t, order, scanned, dropped)
      ensures !status.failure && !interrupted ==> scanned == |order|
    {
      hide Judge, Doomed;
      status, scanned, dropped := SUCCESS, 0, {};
      NothingDoomed(t, order);
      assert t - {} == t;
      while scanned < |order|
        invariant scanned <= |order| && status == SUCCESS
        invariant Signalled() && (old(modified) ==> modified) &&
                    db.committed == old(db.committed)
        invariant o.cfg.dryRun ==> db.log == old(db.log) && db.open == old(db.open) && modified == old(modified)
        invariant Progress(t, order, scanned, dropped) && StillDurable(old(db.log), t)
      {
        var stepFails: bool := *;
        var signal: bool := *;
        interrupted := interrupted || (signal && fate.signals);
        if stepFails && fate.faults {
          if !interrupted {
            status := FAILURE;
          }
          return;
        }
        if interrupted {
          return;
        }
        var dealt, deleted;
        status, dealt, deleted := SweepRow(t, order[scanned]);
        if !dealt {
          return;
        }
        DoomedStep(t, order, scanned, deleted);
        if deleted {
          assert t - (dropped + {order[scanned]}) == (t - dropped) - {order[scanned]};
          dropped := dropped + {order[scanned]};
        } else {
          assert dropped + {} == dropped;
        }
        scanned := scanned + 1;
        if status != SUCCESS {
          return;
        }
      }
    }

    lemma NothingDoomed(t: Table, order: seq<RowId>)
      ensures Doomed(o, disk, t, order[..0]) == {}
    {
    }

    /** `db_delete_missing_metadata`. `ran` tells whether the rows were looked at; `order` is the
        order of the scan and `scanned` how far it came. */
    method DeleteMissing() returns (
        status: Return, ran: bool, order: seq<RowId>, scanned: nat, dropped: set<RowId>)
      requires db.Valid() && !db.open && db.looseWrites == 0
      modifies this`interrupted, this`modified, db
      ensures db.Valid() && Signalled()
      // The rows are looked at unless there is a reason not to; a failure has its cause outside.
      ensures !status.failure && !interrupted && o.update && !o.compare && disk.rootOpens ==> ran
      ensures status.failure ==> Blamable()
      // No DELETE runs outside the transaction.
      ensures db.looseWrites == 0
      // All or nothing: a failure leaves the durable table as it was.
      ensures status.failure ==> db.durable == old(db.durable)
      // A process that dies leaves the old table or the final one.
      ensures old(db.log) <= db.log
      ensures forall k :: |old(db.log)| <= k < |db.log| ==>
                db.log[k].durable == old(db.durable) || db.log[k].durable == db.durable
      // A dry run takes the same decisions and changes nothing.
      ensures o.cfg.dryRun ==> db.log == old(db.log)
      ensures !ran ==> db.durable == old(db.durable)
      ensures ran ==> o.update && !o.compare
      ensures ran && !status.failure ==>
                && NoDuplicates(order) && (forall id :: id in order <==> id in old(db.durable))
                && scanned <= |order| && (!interrupted ==> scanned == |order|)
                && dropped == Doomed(o, disk, old(db.durable), order[..scanned])
                && (forall id :: id in order[..scanned] ==> Judge(o, disk, old(db.durable)[id].path) != Abort)
      ensures ran && !status.failure && !o.cfg.dryRun ==> !db.open && db.durable == old(db.durable) - dropped
      ensures old(modified) || db.durable != old(db.durable) ==> modified
    {
      ran, order, scanned, dropped := false, [], 0, {};
      status := SUCCESS;
      if interrupted || o.compare || !o.update {
        status := Provide(status);
        return;
      }
      var retrieved: bool := *;
      retrieved := retrieved || !fate.faults;
      status := Provide(if retrieved then SUCCESS else FAILURE);
      if status != SUCCESS || !disk.rootOpens {
        status := Provide(status);
        return;
      }
      status, ran, order, scanned, dropped := Transact();
    }

    /** The scan inside its transaction. */
    method Transact() returns (
        status: Return, ran: bool, order: seq<RowId>, scanned: nat, dropped: set<RowId>)
      requires db.Valid() && !db.open && db.looseWrites == 0
      modifies this`interrupted, this`modified, db
      ensures db.Valid() && Signalled() && db.looseWrites == 0
      ensures (status.failure ==> Blamable()) && (!status.failure ==> ran)
      ensures status.failure ==> db.durable == old(db.durable)
      ensures old(db.log) <= db.log
      ensures forall k :: |old(db.log)| <= k < |db.log| ==>
                db.log[k].durable == old(db.durable) || db.log[k].durable == db.durable
      ensures o.cfg.dryRun ==> db.log == old(db.log)
      ensures !status.failure ==>
                && NoDuplicates(order) && (forall id :: id in order <==> id in old(db.durable))
                && scanned <= |order| && (!interrupted ==> scanned == |order|)
                && dropped == Doomed(o, disk, old(db.durable), order[..scanned])
                && (forall id :: id in order[..scanned] ==> Judge(o, disk, old(db.durable)[id].path) != Abort)
      ensures !status.failure && !o.cfg.dryRun ==> !db.open && db.durable == old(db.durable) - dropped
      ensures old(modified) || db.durable != old(db.durable) ==> modified
    {
      hide Judge, Doomed, NoDuplicates;
      ran, order, scanned, dropped := false, [], 0, {};
      status := SUCCESS;
      ghost var t := db.durable;
      if !o.cfg.dryRun {
        var ok := db.Begin();
        if !ok {
          status := FAILURE;
        }
      }
      var prepared: bool := *;
      if status == SUCCESS && !prepared && fate.faults {
        status := FAILURE;
      }
      if status == SUCCESS {
        ran := true;
        order := SelectAll();
        status, scanned, dropped := Sweep(db.view, order);
      }
      var closed: bool := *;  // sqlite3_finalize and close
      if !closed && fate.faults {
        status := FAILURE;
      }
      status := Finish(status, t, order, scanned, dropped);
    }

    /** Commit unless something failed, then roll back a transaction that is still open. */
    method Finish(
        status0: Return, ghost t: Table, ghost order: seq<RowId>, ghost scanned: nat, ghost dropped: set<RowId>)
      returns (status: Return)
      requires db.Valid() && db.looseWrites == 0 && db.durable == t && (o.cfg.dryRun ==> !db.open)
      requires Calm(status0) || (status0.failure && !status0.success && !status0.warning)
      requires scanned <= |order| && (!status0.failure ==> Progress(t, order, scanned, dropped))
      requires status0.failure ==> Blamable()
      modifies this`interrupted, db
      ensures status.failure ==> Blamable()
      ensures db.Valid() && db.looseWrites == 0 && Signalled()
      ensures o.cfg.dryRun ==> db.log == old(db.log)
      ensures old(db.log) <= db.log
      ensures forall k :: |old(db.log)| <= k < |db.log| ==> db.log[k].durable == t || db.log[k].durable == db.durable
      ensures status0.failure ==> status.failure
      ensures status.failure ==> db.durable == t
      ensures !status.failure && !o.cfg.dryRun ==> !db.open && db.durable == t - dropped
    {
      status := status0;
      if !o.cfg.dryRun {
        if !status.failure {
          var ok := db.Commit();
          if !ok {
            status := FAILURE;
          }
        }
        if db.open {
          var ok := db.Rollback();
          if !ok {
            status := FAILURE;
          }
        }
      }
      status := Provide(status);
    }
  }

  /** After a complete scan exactly the documented survivors are left, unchanged. */
  lemma SurvivorsExactly(o: Options, disk: Disk, t: Table, order: seq<RowId>, t': Table)
    requires forall id :: id in order <==> id in t
    requires forall id :: id in order ==> Judge(o, disk, t[id].path) != Abort
    requires t' == t - Doomed(o, disk, t, order)
    ensures forall id :: id in t' <==> id in t && Survives(o, disk, t[id].path)
    ensures forall id :: id in t' ==> t'[id] == t[id]
  {
    forall id | id in t
      ensures id in t' <==> Survives(o, disk, t[id].path)
    {
      JudgeKeepsSurvivors(o, disk, t[id].path);
    }
  }

  /** After an interruption the rows not reached by the scan are untouched. */
  lemma UnscannedUntouched(o: Options, disk: Disk, t: Table, order: seq<RowId>, n: nat, t': Table)
    requires n <= |order| && NoDuplicates(order)
    requires t' == t - Doomed(o, disk, t, order[..n])
    ensures forall i :: n <= i < |order| && order[i] in t ==> order[i] in t' && t'[order[i]] == t[order[i]]
  {
    forall i | n <= i < |order| && order[i] in t
      ensures order[i] !in order[..n]
    {
      assert forall j :: 0 <= j < n ==> order[..n][j] != order[i];
    }
  }
}
