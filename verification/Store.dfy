/** The `files` table and the SQLite connection that holds it.

    A connection has a durable table, which survives the death of the process, and a view, which is
    what its own statements see. They differ only while a transaction is open. Any statement may
    fail, and SQLite may roll an open transaction back on its own. `log` lists every pair of tables
    that was ever current: the process may die between any two statements, and what it then leaves
    behind is the durable half of the pair that was current. */
module Store {
  import opened Common
  import opened Sha512

  type RowId = int

  /** `CmpctStat`. */
  datatype Stat = Stat(
    size: nat, blocks: int, dev: int, ino: int,
    mtimeSec: int, mtimeNsec: int, ctimeSec: int, ctimeNsec: int)

  /** One row of `files`; None is SQL NULL. */
  datatype Row = Row(
    path: Path, offset: Option<nat>, digest: Option<Digest>, stat: Stat, ctx: Option<Context>)

  type Table = map<RowId, Row>

  /** `epoch` counts the rollbacks that happened before. */
  datatype Snapshot = Snapshot(durable: Table, view: Table, epoch: nat)

  /** `relative_path TEXT UNIQUE NOT NULL`. */
  ghost predicate UniquePaths(t: Table) {
    forall a, b :: a in t && b in t && t[a].path == t[b].path ==> a == b
  }

  predicate HasPath(t: Table, p: Path) {
    exists id :: id in t && t[id].path == p
  }

  lemma HasPathAt(t: Table, id: RowId)
    requires id in t
    ensures HasPath(t, t[id].path)
  {
  }

  lemma SamePath(t: Table, a: RowId, b: RowId)
    requires UniquePaths(t) && a in t && b in t && t[a].path == t[b].path
    ensures a == b
  {
  }

  lemma {:induction false} Bound(ids: set<RowId>) returns (top: RowId)
    ensures forall id :: id in ids ==> id < top
  {
    if ids == {} {
      top := 0;
    } else {
      var id := Pick(ids);
      var rest := Bound(ids - {id});
      top := if rest <= id then id + 1 else rest;
      assert forall k :: k in ids ==> k == id || k in ids - {id};
    }
  }

  lemma Unused(t: Table) returns (id: RowId)
    ensures id !in t
  {
    id := Bound(t.Keys);
  }

  class Database {
    const faults: bool  // statements may fail
    var durable: Table
    var view: Table
    var open: bool  // the negation of sqlite3_get_autocommit()
    var epoch: nat
    var log: seq<Snapshot>

    ghost var committed: Table  // the table published by the last successful COMMIT
    ghost var looseWrites: nat  // statements that wrote a file row with no transaction open

    ghost predicate Valid()
      reads this
    {
      && log != []
      && log[|log| - 1] == Snapshot(durable, view, epoch)
      && (!open ==> view == durable)
      && UniquePaths(durable) && UniquePaths(view)
      && (looseWrites == 0 ==> durable == committed)
    }

    constructor (t: Table, faults: bool)
      requires UniquePaths(t)
      ensures this.faults == faults
      ensures Valid() && !open && looseWrites == 0
      ensures durable == t && view == t && epoch == 0 && log == [Snapshot(t, t, 0)]
    {
      this.faults := faults;
      durable, view, open := t, t, false;
      epoch, log := 0, [Snapshot(t, t, 0)];
      committed, looseWrites := t, 0;
    }

    /** `BEGIN IMMEDIATE`. */
    method Begin() returns (ok: bool)
      requires Valid()
      modifies this`open
      ensures Valid()
      ensures ok ==> !old(open) && open
      ensures !ok ==> open == old(open) && (faults || old(open))
    {
      var busy: bool := *;
      ok := !open && !(busy && faults);
      if ok {
        open := true;
      }
    }

    /** `COMMIT`. A failed commit may leave the transaction open or end it. */
    method Commit() returns (ok: bool)
      requires Valid()
      modifies this
      ensures Valid() && looseWrites == old(looseWrites)
      ensures !ok ==> faults || !old(open)
      ensures ok ==> old(open) && !open && durable == old(view) && committed == old(view)
      ensures ok ==> log == old(log) + [Snapshot(old(view), old(view), epoch)] && epoch == old(epoch)
      ensures !ok ==> durable == old(durable) && committed == old(committed)
      ensures !ok ==>
                (open == old(open) && view == old(view) && log == old(log) && epoch == old(epoch)) ||
                RolledBack(old(open), old(durable), old(log), old(epoch))
    {
      ok := *;
      ok := (ok || !faults) && open;
      if ok {
        durable, open, committed := view, false, view;
        log := log + [Snapshot(durable, view, epoch)];
      } else {
        AutoRollback();
      }
    }

    ghost predicate RolledBack(wasOpen: bool, d: Table, l: seq<Snapshot>, e: nat)
      reads this
    {
      wasOpen && !open && durable == d && view == d && epoch == e + 1 && log == l + [Snapshot(d, d, epoch)]
    }

    /** `ROLLBACK`. */
    method Rollback() returns (ok: bool)
      requires Valid()
      modifies this`view, this`open, this`log, this`epoch
      ensures Valid()
      ensures !ok ==> faults || !old(open)
      ensures ok ==> RolledBack(old(open), old(durable), old(log), old(epoch))
      ensures !ok ==> open == old(open) && view == old(view) && log == old(log) && epoch == old(epoch)
    {
      ok := *;
      ok := (ok || !faults) && open;
      if ok {
        view, open, epoch := durable, false, epoch + 1;
        log := log + [Snapshot(durable, view, epoch)];
      }
    }

    /** SQLite may end an open transaction by itself after an I/O or storage error. */
    method AutoRollback()
      requires Valid()
      modifies this`view, this`open, this`log, this`epoch
      ensures Valid()
      ensures !faults ==> open == old(open) && view == old(view) && log == old(log) && epoch == old(epoch)
      ensures (open == old(open) && view == old(view) && log == old(log) && epoch == old(epoch))
           || RolledBack(old(open), old(durable), old(log), old(epoch))
    {
      var strikes: bool := *;
      if strikes && faults && open {
        view, open, epoch := durable, false, epoch + 1;
        log := log + [Snapshot(durable, view, epoch)];
      }
    }

    /** A successful write: inside a transaction it changes the view, outside it is durable at once. */
    method Write(t: Table)
      requires Valid() && UniquePaths(t)
      modifies this
      ensures Valid() && open == old(open) && view == t && committed == old(committed)
      ensures durable == (if open then old(durable) else t)
      ensures looseWrites == old(looseWrites) + (if open then 0 else 1)
      ensures log == old(log) + [Snapshot(durable, t, epoch)] && epoch == old(epoch)
    {
      view := t;
      if !open {
        durable, looseWrites := t, looseWrites + 1;
      }
      log := log + [Snapshot(durable, view, epoch)];
    }

    /** What a failed statement may have done. */
    ghost predicate Refused(wasOpen: bool, d: Table, v: Table, l: seq<Snapshot>, e: nat)
      reads this
    {
      || (open == wasOpen && durable == d && view == v && log == l && epoch == e)
      || RolledBack(wasOpen, d, l, e)
    }

    /** `INSERT INTO files`. The new ID is unused; a path that is already stored is refused. */
    method Insert(row: Row) returns (ok: bool, id: RowId)
      requires Valid()
      modifies this
      ensures Valid() && committed == old(committed)
      ensures ok ==> !HasPath(old(view), row.path) && id !in old(view) && view == old(view)[id := row]
      ensures ok ==> open == old(open) && durable == (if open then old(durable) else view)
      ensures ok ==> log == old(log) + [Snapshot(durable, view, epoch)] && epoch == old(epoch)
      ensures ok ==> looseWrites == old(looseWrites) + (if open then 0 else 1)
      ensures !ok ==> faults || HasPath(old(view), row.path)
      ensures !ok ==>
                looseWrites == old(looseWrites) && Refused(old(open), old(durable), old(view), old(log), old(epoch))
    {
      // SQLite picks an unused ID, or refuses when it has none left.
      ghost var unused := Unused(view);
      id :| id !in view;
      ok := *;
      ok := (ok || !faults) && forall k | k in view :: view[k].path != row.path;
      if ok {
        Write(view[id := row]);
      } else {
        AutoRollback();
      }
    }

    /** `UPDATE files ... WHERE ID = id`: no row with that ID is no error. */
    method Update(id: RowId, row: Row) returns (ok: bool)
      requires Valid()
      requires id in view ==> view[id].path == row.path
      modifies this
      ensures Valid() && committed == old(committed)
      ensures ok ==> view == (if id in old(view) then old(view)[id := row] else old(view))
      ensures ok ==> open == old(open) && durable == (if open then old(durable) else view)
      ensures ok ==> log == old(log) + [Snapshot(durable, view, epoch)] && epoch == old(epoch)
      ensures ok ==> looseWrites == old(looseWrites) + (if open then 0 else 1)
      ensures !ok ==> faults
      ensures !ok ==>
                looseWrites == old(looseWrites) && Refused(old(open), old(durable), old(view), old(log), old(epoch))
    {
      ok := *;
      ok := ok || !faults;
      if ok {
        Write(if id in view then view[id := row] else view);
      } else {
        AutoRollback();
      }
    }

    /** `DELETE FROM files WHERE ID = id`. */
    method Delete(id: RowId) returns (ok: bool)
      requires Valid()
      modifies this
      ensures Valid() && committed == old(committed)
      ensures ok ==> view == old(view) - {id}
      ensures ok ==> open == old(open) && durable == (if open then old(durable) else view)
      ensures ok ==> log == old(log) + [Snapshot(durable, view, epoch)] && epoch == old(epoch)
      ensures ok ==> looseWrites == old(looseWrites) + (if open then 0 else 1)
      ensures !ok ==> faults
      ensures !ok ==>
                looseWrites == old(looseWrites) && Refused(old(open), old(durable), old(view), old(log), old(epoch))
    {
      ok := *;
      ok := ok || !faults;
      if ok {
        Write(view - {id});
      } else {
        AutoRollback();
      }
    }

    /** `SELECT ... WHERE relative_path = p`. */
    method Find(p: Path) returns (ok: bool, id: Option<RowId>)
      requires Valid()
      ensures !ok ==> faults
      ensures ok ==> match id
                     case None => !HasPath(view, p)
                     case Some(k) => k in view && view[k].path == p
    {
      ok := *;
      ok := ok || !faults;
      if k :| k in view && view[k].path == p {
        id := Some(k);
      } else {
        id := None;
      }
    }
  }
}
