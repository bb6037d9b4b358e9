/** Any number of runs of the program over one database: the traversal, and the cleanup after it. Between
    two runs the files may change and the options may differ, and each run may die between any two
    statements. */
module History {
  import opened Common
  import opened Status
  import opened Sha512
  import opened Store
  import opened Soundness
  import opened FileScan
  import Cleanup

  /** `death` counts the states of the connection until the process dies, if it does. */
  datatype Run = Run(
    options: Cleanup.Options, disk: Cleanup.Disk, visits: seq<Visit>, fate: Fate, death: Option<nat>)

  function StatsOf(visits: seq<Visit>): map<Path, Stat> {
    if visits == [] then map[] else
      var n := |visits| - 1;
      StatsOf(visits[..n])[visits[n].path := visits[n].stat]
  }

  /** The digests of the locked paths that the run finds complete. */
  function SealsOf(w: World, cfg: Config, t: Table): (m: map<Path, Option<Digest>>)
    requires UniquePaths(t)
    ensures forall id :: id in t && SealsRow(w, cfg, t[id]) ==> t[id].path in m && m[t[id].path] == t[id].digest
    ensures forall p :: p in m ==> exists id :: id in t && SealsRow(w, cfg, t[id]) && t[id].path == p
  {
    map id | id in t && SealsRow(w, cfg, t[id]) :: t[id].path := t[id].digest
  }

  predicate SealsRow(w: World, cfg: Config, r: Row) {
    cfg.locks(r.path) == Hit && r.path !in w.exempt && r.offset == None
  }

  function EnvOf(w: World, r: Run, start: Table): Env
    requires UniquePaths(start)
  {
    Env(r.options.cfg, w, StatsOf(r.visits), SealsOf(w, r.options.cfg, start), r.fate)
  }

  /** The run meets every path once, and the files as the world has them. */
  ghost predicate CoherentRun(w: World, r: Run) {
    && PathsDiffer(r.visits)
    && forall i :: 0 <= i < |r.visits| ==>
        Coherent(Env(r.options.cfg, w, StatsOf(r.visits), map[], r.fate), r.visits[i])
  }

  lemma CoherentStart(w: World, r: Run, start: Table)
    requires UniquePaths(start) && CoherentRun(w, r)
    ensures EnvOf(w, r, start).world == w && EnvOf(w, r, start).fate == r.fate &&
              EnvOf(w, r, start).cfg == r.options.cfg
    ensures forall i :: 0 <= i < |r.visits| ==> Coherent(EnvOf(w, r, start), r.visits[i])
  {
    forall i | 0 <= i < |r.visits| ensures Coherent(EnvOf(w, r, start), r.visits[i]) {
      assert Coherent(Env(r.options.cfg, w, StatsOf(r.visits), map[], r.fate), r.visits[i]);
    }
  }

  /** At the start of a run every seal is in place. */
  lemma SealsStart(w: World, r: Run, start: Table)
    requires UniquePaths(start)
    ensures
      var env := EnvOf(w, r, start);
      SealsProper(env) && Guarded(env, start) && Intact(env, start) && TurnProper(env, Opening(start))
  {
    var env := EnvOf(w, r, start);
    forall p | p in env.seals ensures Locked(env, p) && p !in w.exempt && SealHolds(start, p, env.seals[p]) {
      var id :| id in start && SealsRow(w, r.options.cfg, start[id]) && start[id].path == p;
    }
  }

  predicate Verifies(r: Run, p: Path) {
    r.options.cfg.locks(p) == Hit && r.options.cfg.rehashLocked
  }

  /** Whenever the path is met its metadata is `s`, and no run verifies it as a sealed path. */
  ghost predicate Steady(runs: seq<Run>, p: Path, s: Stat) {
    forall i :: 0 <= i < |runs| ==>
      && !Verifies(runs[i], p)
      && forall j :: 0 <= j < |runs[i].visits| && runs[i].visits[j].path == p ==> runs[i].visits[j].stat == s
  }

  /** Every run locks the path. */
  ghost predicate AllLock(runs: seq<Run>, p: Path) {
    forall i :: 0 <= i < |runs| ==> runs[i].options.cfg.locks(p) == Hit
  }

  /** Every run protects the path and none of them verifies it. */
  ghost predicate Protected(runs: seq<Run>, p: Path) {
    AllLock(runs, p) && forall i :: 0 <= i < |runs| ==> !Verifies(runs[i], p)
  }

  lemma {:induction false} StatsFromVisits(visits: seq<Visit>, p: Path)
    requires p in StatsOf(visits)
    ensures exists j :: 0 <= j < |visits| && visits[j].path == p && visits[j].stat == StatsOf(visits)[p]
  {
    var n := |visits| - 1;
    if visits[n].path != p {
      StatsFromVisits(visits[..n], p);
      var j :| 0 <= j < n && visits[..n][j].path == p && visits[..n][j].stat == StatsOf(visits[..n])[p];
      assert visits[j].path == p;
    }
  }

  /** The cleanup of the run looks at the rows. */
  predicate Cleans(r: Run) {
    r.options.update && !r.options.compare
  }

  /** No cleanup has a reason to drop the path. */
  ghost predicate Stays(runs: seq<Run>, p: Path) {
    forall i :: 0 <= i < |runs| && Cleans(runs[i]) ==> Cleanup.Survives(runs[i].options, runs[i].disk, p)
  }

  /** The cleanup removes rows that it condemns, and changes nothing else. */
  ghost predicate Swept(r: Run, t: Table, t': Table) {
    && (forall id :: id in t' ==> id in t && t'[id] == t[id])
    && (forall id :: id in t && id !in t' ==>
        Cleans(r) && Cleanup.Judge(r.options, r.disk, t[id].path) == Cleanup.Delete)
  }

  lemma SurvivorStays(r: Run, t: Table, t': Table, id: RowId)
    requires Swept(r, t, t') && id in t
    requires Cleans(r) ==> Cleanup.Survives(r.options, r.disk, t[id].path)
    ensures id in t' && t'[id] == t[id]
  {
    if Cleans(r) && Cleanup.Judge(r.options, r.disk, t[id].path) != Cleanup.Abort {
      Cleanup.JudgeKeepsSurvivors(r.options, r.disk, t[id].path);
    }
  }

  /** Nothing comes in the way of the run. */
  ghost predicate Peaceful(w: World, r: Run, start: Table)
    requires UniquePaths(start)
  {
    r.death == None && !r.fate.signals && !MayFail(EnvOf(w, r, start))
  }

  lemma PeacefulFacts(w: World, r: Run, start: Table)
    requires UniquePaths(start)
    ensures Peaceful(w, r, start) ==>
              r.death == None && !r.fate.signals && !r.fate.faults && Compiles(r.options.cfg)
  {
  }

  predicate Condemned(r: Run, p: Path) {
    Cleans(r) && Cleanup.Judge(r.options, r.disk, p) == Cleanup.Delete
  }

  /** What a run that nothing comes in the way of leaves: a complete row with the one-shot digest for every
      ordinary file that it met and does not drop, and no row that the cleanup condemns. The cleanup is
      left out after a warning about a locked file, and where the root does not open. */
  ghost predicate Finished(w: World, r: Run, start: Table, t: Table)
    requires UniquePaths(start)
  {
    var env := EnvOf(w, r, start);
    && (forall j :: 0 <= j < |r.visits| && Ordinary(env, r.visits[j]) && !Condemned(r, r.visits[j].path) ==>
          Covered(env, t, r.visits[j]))
    && (r.disk.rootOpens && !Alarms(env, r.visits, {}, start) ==> Clean(r, t))
  }

  ghost predicate Clean(r: Run, t: Table) {
    forall id :: id in t ==> !Condemned(r, t[id].path)
  }

  /** The digest left for an ordinary file is the one-shot digest of its content, whatever the runs before
      have left behind, finished, unfinished or nothing at all. */
  lemma ResumeEqualsOneShot(w: World, r: Run, start: Table, t: Table, j: nat)
    requires UniquePaths(start) && CoherentRun(w, r) && Finished(w, r, start, t)
    requires j < |r.visits| && Ordinary(EnvOf(w, r, start), r.visits[j]) && !Condemned(r, r.visits[j].path)
    ensures exists id :: id in t && t[id].path == r.visits[j].path && t[id].offset == None
                         && (r.visits[j].stat.size > 0 ==> t[id].digest == Some(DigestOf(w.comp, r.visits[j].content)))
  {
    var env, v := EnvOf(w, r, start), r.visits[j];
    assert Covered(env, t, v);
    var id :| id in t && CoveredBy(env, t[id], v);
    assert t[id].path == v.path;
  }

  /** A covering row outlives a cleanup that does not condemn its path. */
  lemma CoveredSwept(env: Env, r: Run, v: Visit, t: Table, t': Table)
    requires Covered(env, t, v) && Swept(r, t, t') && !Condemned(r, v.path)
    ensures Covered(env, t', v)
  {
    var id :| id in t && CoveredBy(env, t[id], v);
    assert id in t';
  }

  lemma FinishedRun(w: World, r: Run, start: Table, mid: Table, t: Table)
    requires UniquePaths(start) && Swept(r, mid, t)
    requires AllOrdinaryCovered(EnvOf(w, r, start), r.visits, mid)
    requires r.disk.rootOpens && !Alarms(EnvOf(w, r, start), r.visits, {}, start) ==> Clean(r, t)
    ensures Finished(w, r, start, t)
  {
    hide EnvOf, Ordinary, Covered, Swept, Alarms, Clean;
    var env := EnvOf(w, r, start);
    forall j | 0 <= j < |r.visits| && Ordinary(env, r.visits[j]) && !Condemned(r, r.visits[j].path)
      ensures Covered(env, t, r.visits[j])
    {
      CoveredSwept(env, r, r.visits[j], mid, t);
    }
  }

  /** The rows of a path from one durable table to a later one. */
  ghost predicate Advanced(runs: seq<Run>, p: Path, s: Stat, t: Table, t': Table) {
    forall id :: id in t && t[id].path == p && Stays(runs, p) ==>
      && id in t' && t'[id].path == p
      && (Steady(runs, p, s) ==> NoLess(t[id], t'[id], s))
      && (Protected(runs, p) && t[id].offset == None ==> t'[id] == t[id])
  }

  /** A locked path stays by itself: the cleanup never drops a locked row. */
  lemma LockedStays(runs: seq<Run>, p: Path)
    requires AllLock(runs, p)
    ensures Stays(runs, p)
  {
  }

  /** What one run, verifying or not, does to the sealed rows of the paths it locks: none is dropped, and
      none is finished with another digest. */
  ghost predicate SealsHeld(w: World, r: Run, t: Table, t': Table) {
    forall id :: id in t && SealsRow(w, r.options.cfg, t[id]) ==> SealHeld(t, t', id)
  }

  ghost predicate SealHeld(t: Table, t': Table, id: RowId)
    requires id in t
  {
    id in t' && t'[id].path == t[id].path && (t'[id].offset.Some? || t'[id].digest == t[id].digest)
  }

  lemma HeldByRun(w: World, r: Run, b: Table, mid: Table, c: Table)
    requires UniquePaths(b) && TableStep(EnvOf(w, r, b), b, mid) && Guarded(EnvOf(w, r, b), mid) && Swept(r, mid, c)
    ensures SealsHeld(w, r, b, c)
  {
    hide Swept;
    var env := EnvOf(w, r, b);
    forall id | id in b && SealsRow(w, r.options.cfg, b[id])
      ensures SealHeld(b, c, id)
    {
      assert RowStep(env, b[id], mid[id]);
      GuardedRow(env, mid, id);
      SurvivorStays(r, mid, c, id);
    }
  }

  /** Over any number of runs that lock the path, verifying ones included, a sealed digest stays until
      a run is seen to leave the row unfinished. */
  lemma {:induction false} SealUntilBroken(w: World, runs: seq<Run>, trail: seq<Table>, id: RowId, m: nat, n: nat)
    requires |trail| == |runs| + 1 && m <= n < |trail| && id in trail[m] && trail[m][id].path !in w.exempt
    requires forall k :: m <= k < n ==> SealsHeld(w, runs[k], trail[k], trail[k + 1])
    requires forall k :: m <= k < n ==> runs[k].options.cfg.locks(trail[m][id].path) == Hit
    requires forall k :: m <= k <= n && id in trail[k] ==> trail[k][id].offset == None
    ensures id in trail[n] && trail[n][id].path == trail[m][id].path && trail[n][id].digest == trail[m][id].digest
    decreases n
  {
    if m < n {
      SealUntilBroken(w, runs, trail, id, m, n - 1);
      assert SealsHeld(w, runs[n - 1], trail[n - 1], trail[n]);
      assert SealsRow(w, runs[n - 1].options.cfg, trail[n - 1][id]) && SealHeld(trail[n - 1], trail[n], id);
    }
  }

  /** A row from the start of a run to its end: what it covers of a file that is met does not shrink, and
      the row of a file that is not met stays. */
  predicate Forward(stats: map<Path, Stat>, r: Row, r': Row) {
    && r'.path == r.path
    && if r.path in stats then NoLess(r, r', stats[r.path]) else r' == r
  }

  /** One run, in any mode, and the rows that it does not verify: those of paths it does not lock, and the
      unfinished ones of the paths that it does. */
  ghost predicate ProgressHeld(w: World, r: Run, t: Table, t': Table) {
    forall id :: id in t && id in t' && Unverified(w, r, t[id]) ==> Forward(StatsOf(r.visits), t[id], t'[id])
  }

  predicate Unverified(w: World, r: Run, row: Row) {
    Verifies(r, row.path) ==> row.offset.Some? && row.path !in w.exempt
  }

  lemma ProgressByRun(w: World, r: Run, b: Table, mid: Table, c: Table)
    requires UniquePaths(b) && TableStep(EnvOf(w, r, b), b, mid) && Swept(r, mid, c)
    ensures ProgressHeld(w, r, b, c)
  {
    var env := EnvOf(w, r, b);
    forall id | id in b && id in c && Unverified(w, r, b[id])
      ensures Forward(StatsOf(r.visits), b[id], c[id])
    {
      assert RowStep(env, b[id], mid[id]) && c[id] == mid[id];
      if b[id].path in env.seals {
        var k :| k in b && SealsRow(w, r.options.cfg, b[k]) && b[k].path == b[id].path;
        SamePath(b, k, id);
      }
    }
  }

  /** Over any number of runs, verifying ones included, an unfinished row that stays never loses what has
      been hashed of a file with the same metadata. */
  lemma {:induction false} ProgressOverRuns(
      w: World, runs: seq<Run>, trail: seq<Table>, id: RowId, p: Path, s: Stat, m: nat, n: nat)
    requires |trail| == |runs| + 1 && m <= n < |trail|
    requires forall k :: m <= k <= n ==> id in trail[k]
    requires trail[m][id].path == p && p !in w.exempt
    requires forall k :: m <= k < n ==> ProgressHeld(w, runs[k], trail[k], trail[k + 1])
    requires forall k :: m <= k < n ==> Unverified(w, runs[k], trail[k][id])
    requires forall k :: m <= k < n && p in StatsOf(runs[k].visits) ==> StatsOf(runs[k].visits)[p] == s
    ensures trail[n][id].path == p && NoLess(trail[m][id], trail[n][id], s)
    decreases n
  {
    if m < n {
      ProgressOverRuns(w, runs, trail, id, p, s, m, n - 1);
      assert ProgressHeld(w, runs[n - 1], trail[n - 1], trail[n]);
      assert Unverified(w, runs[n - 1], trail[n - 1][id]);
      assert Forward(StatsOf(runs[n - 1].visits), trail[n - 1][id], trail[n][id]);
    }
  }

  /** Every row belongs to a file that was in the database at first, or that one of the runs has met. */
  ghost predicate Accounted(start: Table, runs: seq<Run>, n: nat, t: Table)
    requires n <= |runs|
  {
    forall id :: id in t ==> HasPath(start, t[id].path) || Met(runs, n, t[id].path)
  }

  ghost predicate Met(runs: seq<Run>, n: nat, p: Path)
    requires n <= |runs|
  {
    exists k :: 0 <= k < n && p in StatsOf(runs[k].visits)
  }

  lemma AccountedByRun(w: World, runs: seq<Run>, n: nat, start: Table, b: Table, mid: Table, c: Table)
    requires n < |runs| && Accounted(start, runs, n, b)
    requires UniquePaths(b) && Traversed(w, runs[n], b, mid) && Swept(runs[n], mid, c)
    ensures Accounted(start, runs, n + 1, c)
  {
    var env := EnvOf(w, runs[n], b);
    forall id | id in c ensures HasPath(start, c[id].path) || Met(runs, n + 1, c[id].path) {
      assert id in mid && c[id] == mid[id];
      if id in b {
        assert RowStep(env, b[id], mid[id]);
        if !HasPath(start, c[id].path) {
          var k :| 0 <= k < n && b[id].path in StatsOf(runs[k].visits);
        }
      } else {
        assert c[id].path in StatsOf(runs[n].visits);
      }
    }
  }

  lemma AccountedAtFirst(start: Table, runs: seq<Run>)
    ensures Accounted(start, runs, 0, start)
  {
    forall id | id in start ensures HasPath(start, start[id].path) {
      HasPathAt(start, id);
    }
  }

  lemma AdvancedByRun(w: World, runs: seq<Run>, n: nat, p: Path, s: Stat, a: Table, b: Table, mid: Table, c: Table)
    requires n < |runs| && Advanced(runs, p, s, a, b)
    requires UniquePaths(b) && Traversed(w, runs[n], b, mid) && Swept(runs[n], mid, c)
    ensures Advanced(runs, p, s, a, c)
  {
    hide Swept;
    forall id | id in a && a[id].path == p && Stays(runs, p)
      ensures id in c && c[id].path == p
      ensures Steady(runs, p, s) ==> NoLess(a[id], c[id], s)
      ensures Protected(runs, p) && a[id].offset == None ==> c[id] == a[id]
    {
      assert id in b && RowStep(EnvOf(w, runs[n], b), b[id], mid[id]);
      if Steady(runs, p, s) && p in StatsOf(runs[n].visits) {
        StatsFromVisits(runs[n].visits, p);
      }
      SurvivorStays(runs[n], mid, c, id);
    }
  }

  /** What every run owes: seals and progress; the whole work, when nothing comes in its way; and, as a dry run,
      that nothing changes. */
  ghost predicate OwedByRun(w: World, r: Run, t: Table, t': Table) {
    && UniquePaths(t) && SealsHeld(w, r, t, t') && ProgressHeld(w, r, t, t')
    && (!r.options.cfg.dryRun && Peaceful(w, r, t) ==> Finished(w, r, t, t'))
    && (r.options.cfg.dryRun ==> t' == t)
  }

  lemma OneRunOwes(w: World, r: Run, b: Table, mid: Table, c: Table)
    requires UniquePaths(b) && Traversed(w, r, b, mid) && Swept(r, mid, c)
    requires !r.options.cfg.dryRun && Peaceful(w, r, b) ==> Finished(w, r, b, c)
    requires r.options.cfg.dryRun ==> c == b
    ensures OwedByRun(w, r, b, c)
  {
    hide Swept, SealsHeld, ProgressHeld, Peaceful, Finished, TableStep, Guarded, UniquePaths, TableSound;
    HeldByRun(w, r, b, mid, c);
    ProgressByRun(w, r, b, mid, c);
  }

  /** For every history, whatever the runs do and wherever they die: each row left is a true statement
      about its file, so a stored digest is the one-shot digest; a row of a steady path that no cleanup
      has a reason to drop never covers less of the file than before; a sealed row of a protected path is
      neither changed nor dropped. No run, verifying ones included, finishes a sealed row with another
      digest or loses what an unfinished row covers, and no row appears for a file that no run has met.
      `trail` lists the durable table that each run left behind. */
  method AnyHistory(w: World, start: Table, runs: seq<Run>, ghost p: Path, ghost s: Stat)
    returns (trail: seq<Table>)
    requires UniquePaths(start) && TableSound(w, start)
    requires forall i :: 0 <= i < |runs| ==> CoherentRun(w, runs[i])
    ensures |trail| == |runs| + 1 && trail[0] == start
    ensures forall n :: 0 <= n < |trail| ==> UniquePaths(trail[n]) && TableSound(w, trail[n])
    ensures forall m, n :: 0 <= m <= n < |trail| ==> Advanced(runs, p, s, trail[m], trail[n])
    ensures AllLock(runs, p) ==> Stays(runs, p)
    ensures forall n :: 0 <= n < |runs| ==> OwedByRun(w, runs[n], trail[n], trail[n + 1])
    ensures forall n :: 0 <= n <= |runs| ==> Accounted(start, runs, n, trail[n])
  {
    hide TableSound, TableStep, UniquePaths, Coherent, Swept, Stays, AllLock, Guarded, SealsHeld, EnvOf;
    hide Traversed, OwedByRun, Accounted, Peaceful, Finished;
    trail := [start];
    AccountedAtFirst(start, runs);
    assert Advanced(runs, p, s, start, start);
    for n := 0 to |runs|
      invariant |trail| == n + 1 && trail[0] == start
      invariant forall i :: 0 <= i <= n ==> UniquePaths(trail[i]) && TableSound(w, trail[i])
      invariant forall i, j :: 0 <= i <= j <= n ==> Advanced(runs, p, s, trail[i], trail[j])
      invariant forall i :: 0 <= i < n ==> OwedByRun(w, runs[i], trail[i], trail[i + 1])
      invariant forall i :: 0 <= i <= n ==> Accounted(start, runs, i, trail[i])
    {
      var t;
      ghost var mid;
      t, mid := OneRun(w, runs[n], trail[n]);
      forall i | 0 <= i <= n
        ensures Advanced(runs, p, s, trail[i], t)
      {
        AdvancedByRun(w, runs, n, p, s, trail[i], trail[n], mid, t);
      }
      OneRunOwes(w, runs[n], trail[n], mid, t);
      AccountedByRun(w, runs, n, start, trail[n], mid, t);
      assert Advanced(runs, p, s, t, t);
      trail := trail + [t];
    }
    if AllLock(runs, p) {
      LockedStays(runs, p);
    }
  }

  /** What the traversal may have made of the rows that the run found. */
  ghost predicate Traversed(w: World, r: Run, start: Table, t: Table)
    requires UniquePaths(start)
  {
    && UniquePaths(t) && TableSound(w, t)
    && TableStep(EnvOf(w, r, start), start, t) && Guarded(EnvOf(w, r, start), t)
  }

  ghost predicate AllOrdinaryCovered(env: Env, visits: seq<Visit>, t: Table) {
    forall j :: 0 <= j < |visits| && Ordinary(env, visits[j]) ==> Covered(env, t, visits[j])
  }

  /** The traversal. `goes` tells whether the cleanup follows. */
  method ScanFiles(w: World, r: Run, start: Table) returns (db: Database, goes: bool, interrupted: bool)
    requires UniquePaths(start) && TableSound(w, start) && CoherentRun(w, r)
    ensures fresh(db) && db.Valid() && db.looseWrites == 0 && db.faults == r.fate.faults && (goes ==> !db.open)
    ensures forall k :: 0 <= k < |db.log| ==> Traversed(w, r, start, db.log[k].durable)
    ensures !r.options.cfg.dryRun && Peaceful(w, r, start) ==>
              && !interrupted && AllOrdinaryCovered(EnvOf(w, r, start), r.visits, db.durable)
              && (!Alarms(EnvOf(w, r, start), r.visits, {}, start) ==> goes)
    ensures r.options.cfg.dryRun ==> db.log == [Snapshot(start, start, 0)] && db.durable == start
  {
    hide EnvOf, SealsProper, Guarded, Intact, TurnProper, InTurn, MayFail, Ordinary, Covered, Alarms, TableStep,
         TableSound;
    var env := EnvOf(w, r, start);
    db := new Database(start, r.fate.faults);
    SealsStart(w, r, start);
    CoherentStart(w, r, start);
    var scan := new Scan(env, db);
    var status, errors, reached, done, last := scan.FileList(r.visits);
    goes, interrupted := !Skips(status), scan.interrupted;
    assert r.visits[..|r.visits|] == r.visits;
    forall k | 0 <= k < |db.log|
      ensures Traversed(w, r, start, db.log[k].durable)
    {
      assert db.log[0] == Snapshot(start, start, 0);
      LoggedTable(env, db.log, k);
    }
  }

  lemma LoggedTable(env: Env, log: seq<Snapshot>, k: nat)
    requires LogOK(env, log) && k < |log|
    ensures TableSound(env.world, log[k].durable) && Guarded(env, log[k].durable)
    ensures TableStep(env, log[0].durable, log[k].durable)
    ensures UniquePaths(log[|log| - 1].durable) ==> UniquePaths(log[k].durable)
  {
    hide TableSound, Guarded;
    if UniquePaths(log[|log| - 1].durable) {
      UniqueBefore(env, log[k].durable, log[|log| - 1].durable);
    }
  }

  /** Rows keep their paths, so what is unique later was unique before. */
  lemma UniqueBefore(env: Env, t: Table, t': Table)
    requires TableStep(env, t, t') && UniquePaths(t')
    ensures UniquePaths(t)
  {
    forall a, b | a in t && b in t && t[a].path == t[b].path ensures a == b {
      assert RowStep(env, t[a], t'[a]) && RowStep(env, t[b], t'[b]);
    }
  }

  /** One run, ended by its own end or by the death of the process after any statement. `mid` is what
      the traversal had made of the rows that the cleanup then met. */
  method OneRun(w: World, r: Run, start: Table) returns (t: Table, ghost mid: Table)
    requires UniquePaths(start) && TableSound(w, start) && CoherentRun(w, r)
    ensures UniquePaths(t) && TableSound(w, t)
    ensures Traversed(w, r, start, mid) && Swept(r, mid, t)
    // What nothing comes in the way of is done.
    ensures !r.options.cfg.dryRun && Peaceful(w, r, start) ==> Finished(w, r, start, t)
    ensures r.options.cfg.dryRun ==> t == start
  {
    hide EnvOf, Traversed, TableSound, UniquePaths, Swept, Clean, Finished, AllOrdinaryCovered, Alarms;
    var db, goes, interrupted := ScanFiles(w, r, start);
    ghost var log, scanned := db.log, db.durable;
    if goes {
      CleanUp(r, db, interrupted);
    } else {
      SweptNothing(r, scanned);
    }
    t := db.durable;
    PeacefulFacts(w, r, start);
    if !r.options.cfg.dryRun && Peaceful(w, r, start) {
      FinishedRun(w, r, start, scanned, t);
    }
    mid := scanned;
    if r.death.Some? && r.death.value < |db.log| {
      t := db.log[r.death.value].durable;
      if r.death.value < |log| {
        mid := t;
        SweptNothing(r, t);
      }
    }
    Subtable(w, r, start, mid, t);
  }

  lemma Subtable(w: World, r: Run, start: Table, mid: Table, t: Table)
    requires UniquePaths(start) && Traversed(w, r, start, mid) && Swept(r, mid, t)
    ensures UniquePaths(t) && TableSound(w, t)
  {
  }

  /** `db_delete_missing_metadata` on the connection that the traversal used. */
  method CleanUp(r: Run, db: Database, interrupted: bool)
    requires db.Valid() && !db.open && db.looseWrites == 0
    modifies db
    ensures old(db.log) <= db.log && db.log != [] && db.log[|db.log| - 1].durable == db.durable
    ensures forall k :: |old(db.log)| <= k < |db.log| ==> Swept(r, old(db.durable), db.log[k].durable)
    ensures Swept(r, old(db.durable), db.durable)
    // Whatever is condemned goes, unless something comes in the way.
    ensures !interrupted && !r.fate.signals && !r.fate.faults && !db.faults && Compiles(r.options.cfg) ==>
              (r.disk.rootOpens && !r.options.cfg.dryRun ==> Clean(r, db.durable))
    ensures r.options.cfg.dryRun ==> db.log == old(db.log)
  {
    hide Swept, Clean;
    var cleaner := new Cleanup.Cleaner(r.options, r.disk, r.fate, db, interrupted, false);
    ghost var t, log := db.durable, db.log;
    var status, ran, order, scanned, dropped := cleaner.DeleteMissing();
    SweptNothing(r, t);
    if ran && !status.failure {
      DoomedIsSwept(r, t, order[..scanned], dropped);
      if scanned == |order| {
        assert order[..scanned] == order;
        DoomedIsClean(r, t, order, dropped);
      }
    }
    NothingToClean(r, t);
    forall k | |log| <= k < |db.log|
      ensures Swept(r, t, db.log[k].durable)
    {
      assert db.log[k].durable == t || db.log[k].durable == db.durable;
    }
  }

  lemma DoomedIsClean(r: Run, t: Table, ids: seq<RowId>, dropped: set<RowId>)
    requires dropped == Cleanup.Doomed(r.options, r.disk, t, ids) && forall id :: id in ids <==> id in t
    ensures Clean(r, t - dropped)
  {
    hide Cleanup.Judge;
  }

  lemma NothingToClean(r: Run, t: Table)
    ensures !Cleans(r) ==> Clean(r, t)
  {
  }

  lemma SweptNothing(r: Run, t: Table)
    ensures Swept(r, t, t)
  {
  }

  lemma DoomedIsSwept(r: Run, t: Table, ids: seq<RowId>, dropped: set<RowId>)
    requires Cleans(r) && dropped == Cleanup.Doomed(r.options, r.disk, t, ids)
    ensures Swept(r, t, t - dropped)
  {
    hide Cleanup.Judge;
  }
}
