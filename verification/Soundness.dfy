/** What a row of `files` is allowed to say about a file, and how rows may change during one
    traversal. Everything here is about values; the traversal itself is in FileScan. */
module Soundness {
  import opened Common
  import opened Sha512
  import opened Store

  /** The answer of one list of PCRE2 patterns. */
  datatype Match = Hit | Miss | Broken

  datatype Access = Allowed | Denied | NotFound | AccessError

  datatype Config = Config(
    dryRun: bool, dryRunWithChecksums: bool, watchTimestamps: bool, rehashLocked: bool,
    locks: Path -> Match, includes: Path -> Match, ignores: Path -> Match)

  /** One regular file as the traversal meets it. */
  datatype Visit = Visit(path: Path, stat: Stat, access: Access, seekable: bool, content: seq<Byte>)

  /** The part of the metadata that is taken to determine the content of a path. */
  datatype ContentKey = ContentKey(size: nat, mtimeSec: int, mtimeNsec: int)

  function KeyOf(s: Stat): ContentKey {
    ContentKey(s.size, s.mtimeSec, s.mtimeNsec)
  }

  /** `content` gives the content of every path for every key. For the paths in `exempt` no promise
      is made: their content may change behind unchanged metadata, or they may not be seekable. */
  datatype World = World(comp: Compression, content: (Path, ContentKey) -> seq<Byte>, exempt: set<Path>)

  /** Whether signals may arrive during a run, and whether anything outside the program may fail. */
  datatype Fate = Fate(signals: bool, faults: bool)

  /** One traversal; `stats` is the metadata it meets, `seals` the final digests of the locked paths
      that it finds complete in the database. */
  datatype Env = Env(
    cfg: Config, world: World, stats: map<Path, Stat>, seals: map<Path, Option<Digest>>, fate: Fate)

  ghost predicate Compiles(cfg: Config) {
    forall p :: cfg.locks(p) != Broken && cfg.includes(p) != Broken && cfg.ignores(p) != Broken
  }

  /** Files within the range of the bit counter of SHA-512, about which nothing is exempt. */
  ghost predicate Manageable(env: Env) {
    forall p :: p in env.stats ==> Fits(env.stats[p].size) && p !in env.world.exempt
  }

  /** Without faults, broken patterns and unmanageable files a run has nothing to fail on. */
  ghost predicate MayFail(env: Env) {
    env.fate.faults || !Compiles(env.cfg) || !Manageable(env)
  }

  predicate Coherent(env: Env, v: Visit) {
    && v.path in env.stats && env.stats[v.path] == v.stat
    && |v.content| == v.stat.size
    && (v.path !in env.world.exempt ==> v.seekable && v.content == env.world.content(v.path, KeyOf(v.stat)))
  }

  predicate Locked(env: Env, p: Path) {
    env.cfg.locks(p) == Hit
  }

  // ----- Metadata comparison -----

  const BLKCNT_UNKNOWN := -1

  /** The bits of `Changed` that a comparison can produce, with the default for unknown paths. */
  datatype Changes = Changes(notEqual: bool, size: bool, blocks: bool, mtime: bool, ctime: bool)

  const IDENTICAL := Changes(false, false, false, false, false)
  const NOT_EQUAL := Changes(true, false, false, false, false)

  /** `file_compare_metadata_equivalence`: directed, because only a saved row may lack its blocks. */
  function Compare(saved: Stat, current: Stat): Changes {
    Changes(
      false,
      saved.size != current.size,
      saved.blocks != BLKCNT_UNKNOWN && saved.blocks != current.blocks,
      saved.mtimeSec != current.mtimeSec || saved.mtimeNsec != current.mtimeNsec,
      saved.ctimeSec != current.ctimeSec || saved.ctimeNsec != current.ctimeNsec)
  }

  predicate Identical(saved: Stat, current: Stat): (r: bool)
    ensures r <==>
            && saved.size == current.size
            && saved.mtimeSec == current.mtimeSec && saved.mtimeNsec == current.mtimeNsec
            && saved.ctimeSec == current.ctimeSec && saved.ctimeNsec == current.ctimeNsec
            && (saved.blocks == current.blocks || saved.blocks == BLKCNT_UNKNOWN)
  {
    Compare(saved, current) == IDENTICAL
  }

  // ----- True rows -----

  /** A complete row has the digest of the whole content, or none when the content is empty.
      A partial row has the context left by exactly the bytes before its offset. */
  predicate RowSound(w: World, r: Row) {
    var content := w.content(r.path, KeyOf(r.stat));
    match r.offset
    case None =>
      && r.ctx == None
      && r.digest == if r.stat.size == 0 then None else Some(DigestOf(w.comp, content))
    case Some(k) =>
      && 0 < k <= |content|
      && r.digest == None
      && r.ctx == Some(ContextOf(w.comp, content[..k]))
  }

  ghost predicate TableSound(w: World, t: Table) {
    forall id :: id in t && t[id].path !in w.exempt ==> RowSound(w, t[id])
  }

  lemma SoundRow(w: World, t: Table, id: RowId)
    requires TableSound(w, t) && id in t && t[id].path !in w.exempt
    ensures RowSound(w, t[id])
  {
  }

  // ----- Allowed changes -----

  /** Once a row describes the file as it is now, the part of the file it covers never shrinks. */
  predicate NoLess(r: Row, r': Row, now: Stat) {
    Identical(r.stat, now) ==>
      && Identical(r'.stat, now)
      && (r'.offset.None? || (r.offset.Some? && r.offset.value <= r'.offset.value))
  }

  /** A checksum-locked path whose stored digest is final. */
  predicate Sealed(env: Env, r: Row) {
    Locked(env, r.path) && r.offset == None
  }

  /** --rehash-locked may verify a row of this path that was complete when the run began. */
  predicate Verifiable(env: Env, p: Path) {
    env.cfg.rehashLocked && Locked(env, p) && (p in env.seals || p in env.world.exempt)
  }

  predicate RowStep(env: Env, r: Row, r': Row) {
    && r'.path == r.path
    && (r.path !in env.stats ==> r' == r)
    && (Sealed(env, r) && !env.cfg.rehashLocked ==> r' == r)
    && (r.path in env.stats && !Verifiable(env, r.path) ==> NoLess(r, r', env.stats[r.path]))
  }

  /** Rows keep their ID and are never removed; a new row belongs to a file that the run meets. */
  ghost predicate TableStep(env: Env, t: Table, t': Table) {
    && (forall id :: id in t ==> id in t' && RowStep(env, t[id], t'[id]))
    && (forall id :: id in t' && id !in t ==> t'[id].path in env.stats)
  }

  lemma TableStepTransitive(env: Env, a: Table, b: Table, c: Table)
    requires TableStep(env, a, b) && TableStep(env, b, c)
    ensures TableStep(env, a, c)
  {
    forall id | id in a ensures id in c && RowStep(env, a[id], c[id]) {
      assert id in b && RowStep(env, a[id], b[id]) && RowStep(env, b[id], c[id]);
    }
    forall id | id in c && id !in a ensures c[id].path in env.stats {
      assert id in b ==> RowStep(env, b[id], c[id]);
    }
  }

  // ----- Seals -----

  predicate SealsProper(env: Env) {
    forall p :: p in env.seals ==> Locked(env, p) && p !in env.world.exempt
  }

  /** A sealed path keeps its digest while its row is complete; only an unfinished row may lack it. */
  predicate RowGuarded(env: Env, r: Row) {
    r.offset == None && r.path in env.seals ==> r.digest == env.seals[r.path]
  }

  ghost predicate Guarded(env: Env, t: Table) {
    forall id :: id in t ==> RowGuarded(env, t[id])
  }

  ghost predicate SealHolds(t: Table, p: Path, digest: Option<Digest>) {
    exists id :: id in t && t[id].path == p && t[id].offset == None && t[id].digest == digest
  }

  /** Every seal is still complete. */
  ghost predicate Intact(env: Env, t: Table) {
    forall p :: p in env.seals ==> SealHolds(t, p, env.seals[p])
  }

  lemma SealAt(t: Table, p: Path, digest: Option<Digest>) returns (id: RowId)
    requires SealHolds(t, p, digest)
    ensures id in t && t[id].path == p && t[id].offset == None && t[id].digest == digest
  {
    id :| id in t && t[id].path == p && t[id].offset == None && t[id].digest == digest;
  }

  lemma GuardedRow(env: Env, t: Table, id: RowId)
    requires Guarded(env, t) && id in t
    ensures RowGuarded(env, t[id])
  {
  }

  /** A guarded row that finishes what it replaces leaves every seal complete. */
  lemma IntactWrite(env: Env, t: Table, id: RowId, r: Row)
    requires Intact(env, t) && RowGuarded(env, r) && (id in t ==> t[id].path == r.path)
    requires r.path in env.seals ==> r.offset == None
    ensures Intact(env, t[id := r])
  {
    forall p | p in env.seals ensures SealHolds(t[id := r], p, env.seals[p]) {
      if p == r.path {
        assert t[id := r][id] == r;
      } else {
        var k := SealAt(t, p, env.seals[p]);
        assert t[id := r][k] == t[k];
      }
    }
  }

  lemma GuardedWrite(env: Env, t: Table, id: RowId, r: Row)
    requires Guarded(env, t) && RowGuarded(env, r)
    ensures Guarded(env, t[id := r])
  {
  }

  // ----- Turns -----

  /** What the run found, the files taken up so far, the one whose turn it is, and the tables that were
      current when its turn began. */
  datatype Turn = Turn(start: Table, taken: set<Path>, current: set<Path>, view: Table, durable: Table)

  /** The same rows, apart from those of the paths in `ps`. */
  ghost predicate SameOutside(t: Table, t': Table, ps: set<Path>) {
    && (forall id :: id in t && t[id].path !in ps ==> id in t' && t'[id] == t[id])
    && (forall id :: id in t' && t'[id].path !in ps ==> id in t && t[id] == t'[id])
  }

  /** Files that have not been taken up have the rows that the run found, and since a turn began only
      the row of its file has changed, whatever was committed or rolled back. */
  ghost predicate InTurn(turn: Turn, t: Table) {
    && SameOutside(turn.start, t, turn.taken)
    && (SameOutside(turn.view, t, turn.current) || SameOutside(turn.durable, t, turn.current))
  }

  predicate MustSeal(env: Env, r: Row) {
    Sealed(env, r) && r.path !in env.world.exempt
  }

  /** The run has found every seal, and takes up only files that it meets. */
  ghost predicate TurnProper(env: Env, turn: Turn) {
    && turn.current <= turn.taken <= env.stats.Keys
    && forall id :: id in turn.start && MustSeal(env, turn.start[id]) ==> turn.start[id].path in env.seals
  }

  lemma SameWrite(base: Table, t: Table, ps: set<Path>, id: RowId, r: Row)
    requires SameOutside(base, t, ps) && r.path in ps && (id in t ==> t[id].path == r.path)
    ensures SameOutside(base, t[id := r], ps)
  {
    var t' := t[id := r];
    forall k | k in base && base[k].path !in ps ensures k in t' && t'[k] == base[k] {
      assert k in t && t[k] == base[k];
    }
    forall k | k in t' && t'[k].path !in ps ensures k in base && base[k] == t'[k] {
      assert k in t && t[k] == t'[k];
    }
  }

  lemma TurnWrite(turn: Turn, t: Table, id: RowId, r: Row)
    requires InTurn(turn, t) && turn.current <= turn.taken && r.path in turn.current
    requires id in t ==> t[id].path == r.path
    ensures InTurn(turn, t[id := r])
  {
    hide SameOutside;
    SameWrite(turn.start, t, turn.taken, id, r);
    if SameOutside(turn.view, t, turn.current) {
      SameWrite(turn.view, t, turn.current, id, r);
    } else {
      SameWrite(turn.durable, t, turn.current, id, r);
    }
  }

  lemma SameEverywhere(t: Table, t': Table)
    requires SameOutside(t, t', {})
    ensures t == t'
  {
    forall id | id in t || id in t' ensures id in t && id in t' && t[id] == t'[id] {
      assert (id in t ==> t[id].path !in {}) && (id in t' ==> t'[id].path !in {});
    }
  }

  /** Every table of the history is true and guarded. Every later durable table, as well as the current view, is
      an allowed change of every earlier durable table; and so is every later view of an earlier
      view, when no rollback came between them. */
  ghost predicate LogOK(env: Env, log: seq<Snapshot>) {
    && (forall i :: 0 <= i < |log| ==> TableSound(env.world, log[i].durable) && TableSound(env.world, log[i].view))
    && (forall i :: 0 <= i < |log| ==> Guarded(env, log[i].durable) && Guarded(env, log[i].view))
    && (forall i, j :: 0 <= i <= j < |log| ==> TableStep(env, log[i].durable, log[j].durable))
    && (forall i :: 0 <= i < |log| ==> TableStep(env, log[i].durable, log[|log| - 1].view))
    && (forall i, j :: 0 <= i <= j < |log| ==> log[i].epoch <= log[j].epoch)
    && (forall i, j :: 0 <= i <= j < |log| && log[i].epoch == log[j].epoch ==>
          TableStep(env, log[i].view, log[j].view))
  }

  lemma LogStart(env: Env, t: Table)
    requires TableSound(env.world, t) && Guarded(env, t)
    ensures LogOK(env, [Snapshot(t, t, 0)])
  {
  }

  /** A rollback, a commit and an allowed write each extend a good history. */
  lemma LogGrow(env: Env, log: seq<Snapshot>, s: Snapshot)
    requires log != [] && LogOK(env, log)
    requires
      var last := log[|log| - 1];
      || s == Snapshot(last.durable, last.durable, last.epoch + 1)
      || s == Snapshot(last.view, last.view, last.epoch)
      || (s.epoch == last.epoch && s.durable == last.durable && TableStep(env, last.view, s.view)
          && TableSound(env.world, s.view) && Guarded(env, s.view))
    ensures LogOK(env, log + [s])
  {
    var last := log[|log| - 1];
    var grown := log + [s];
    forall i | 0 <= i < |grown|
      ensures TableStep(env, grown[i].durable, s.durable) && TableStep(env, grown[i].durable, s.view)
    {
      var d := grown[i].durable;
      if i < |log| {
        assert TableStep(env, d, last.durable) && TableStep(env, d, last.view);
        if TableStep(env, last.view, s.view) {
          TableStepTransitive(env, d, last.view, s.view);
        }
      } else {
        assert TableStep(env, last.durable, last.view);
        if s.durable == last.durable && TableStep(env, last.view, s.view) {
          TableStepTransitive(env, last.durable, last.view, s.view);
        }
      }
    }
    forall i | 0 <= i < |grown| && grown[i].epoch == s.epoch
      ensures TableStep(env, grown[i].view, s.view)
    {
      if i < |log| {
        assert log[i].epoch <= log[|log| - 1].epoch;
        assert TableStep(env, grown[i].view, last.view);
        if s.view != last.view {
          TableStepTransitive(env, grown[i].view, last.view, s.view);
        }
      }
    }
  }
}
