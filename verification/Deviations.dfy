/** Where the processing of a file does less than the documentation promises: the exact condition of
    each case, and an input that shows it. */
module Deviations {
  import opened Common
  import opened Sha512
  import opened Store
  import opened Soundness
  import FileScan

  /** What hashing has left of a file: the offset it stopped at, the digest or the context, whether the
      file could not be seeked, and whether reading failed. */
  datatype Left = Left(offset: nat, digest: Digest, ctx: Context, wrongType: bool, readError: bool)

  /** What a stage without hashing leaves. */
  function Unhashed(saved: FileScan.SavedRow): Left {
    Left(0, saved.digest, saved.ctx, false, false)
  }

  function PlanFor(cfg: Config, locked: bool, r: Row, stat: Stat): FileScan.Plan {
    FileScan.MakePlan(cfg, locked, FileScan.Decode(r), stat)
  }

  /** A checksum mismatch is reported for a sealed row. */
  predicate Flagged(cfg: Config, locked: bool, r: Row, stat: Stat, left: Left) {
    var plan := PlanFor(cfg, locked, r, stat);
    && cfg.rehashLocked && plan.lockReady && plan.rehash
    && !left.readError && !left.wrongType && !plan.zeroSize && left.offset == 0
    && left.digest != FileScan.Decode(r).digest
  }

  /** The finished row `r` is written again. */
  predicate Rewritten(cfg: Config, locked: bool, r: Row, stat: Stat, left: Left) {
    var plan := PlanFor(cfg, locked, r, stat);
    && !plan.upToDate && !plan.driftOnly && !plan.violation
    && !left.readError && !Flagged(cfg, locked, r, stat, left) && !cfg.dryRun
    && FileScan.ShouldUpdate(cfg, locked, FileScan.Decode(r), plan, left.offset)
  }

  /** The finished row `r` after a readable file has been processed; `hashed` is what hashing leaves if the
      plan asks for it. */
  function After(cfg: Config, locked: bool, r: Row, stat: Stat, hashed: Left): Row {
    var left := if PlanFor(cfg, locked, r, stat).rehash then hashed else Unhashed(FileScan.Decode(r));
    if Rewritten(cfg, locked, r, stat, left) then
      FileScan.Encode(r.path, stat, left.offset, left.digest, left.ctx, stat.size == 0, left.wrongType)
    else r
  }

  /** These are the decisions of the traversal: for a file whose row was complete, what it compares and saves. */
  lemma DecidesAlike(s: FileScan.Scan, f: FileScan.FileState, r: Row)
    requires f.saved == FileScan.Decode(r) && r.offset == None
    requires
      var plan := PlanFor(s.env.cfg, f.locked, r, f.stat);
      && !plan.upToDate && !plan.driftOnly && f.readable && !f.ignored
      && f.rehash == plan.rehash && f.zeroSize == plan.zeroSize && f.violation == plan.violation
      && s.Compared(f, plan)
    ensures
      var plan := PlanFor(s.env.cfg, f.locked, r, f.stat);
      var left := Left(f.offset, f.digest, f.ctx, f.wrongType, f.readError);
      && (f.mismatch <==> Flagged(s.env.cfg, f.locked, r, f.stat, left))
      && (s.Savable(f, plan, true) && !s.env.cfg.dryRun <==> Rewritten(s.env.cfg, f.locked, r, f.stat, left))
  {
  }

  /** A sealed digest is lost exactly when --rehash-locked verifies a file of the same size, could read it,
      and either stopped inside it, or could not seek it while its metadata had changed. A digest that
      is not lost is the sealed one: it is never replaced by another. */
  lemma SealSurvivesExactly(cfg: Config, r: Row, stat: Stat, hashed: Left)
    requires r.offset == None && r.digest.Some? && r.stat.size > 0
    ensures
      var r' := After(cfg, true, r, stat, hashed);
      && (r'.digest == r.digest <==>
            || cfg.dryRun || !cfg.rehashLocked || r.stat.size != stat.size || hashed.readError
            || (hashed.offset == 0 && !(hashed.wrongType && !Identical(r.stat, stat))))
      && (r'.digest == r.digest || r'.digest == None)
      && (r'.offset == None <==> r'.digest == r.digest || hashed.offset == 0)
  {
    assert FileScan.Decode(r).stat == r.stat;
  }

  /** A finished row is falsified without hashing exactly when it has no digest, the path is not locked, and
      nothing but ctime or the allocated blocks has changed: NULL then becomes a digest of zeros. */
  lemma ReusedDigestExactly(cfg: Config, locked: bool, r: Row, stat: Stat, hashed: Left)
    requires r.offset == None && stat.size > 0
    ensures
      var r', c := After(cfg, locked, r, stat, hashed), Compare(r.stat, stat);
      && (!PlanFor(cfg, locked, r, stat).rehash && r'.digest != r.digest <==>
            && r.digest == None && !locked && !cfg.watchTimestamps && !cfg.dryRun
            && !c.size && !c.mtime && (c.ctime || c.blocks))
      && (!PlanFor(cfg, locked, r, stat).rehash && r'.digest != r.digest ==> r'.digest == Some(FileScan.ZERO_DIGEST))
  {
    assert FileScan.Decode(r).stat == r.stat;
  }

  /** A plain dry run computes no digest, so it reports a sealed file exactly when its stored digest is not
      all zeros, whatever the file contains. */
  lemma DryRunFlagsExactly(cfg: Config, r: Row, stat: Stat, ctx: Context)
    requires cfg.dryRun && !cfg.dryRunWithChecksums && cfg.rehashLocked
    requires r.offset == None && r.digest.Some? && r.stat.size == stat.size > 0
    ensures Flagged(cfg, true, r, stat, Left(0, FileScan.ZERO_DIGEST, ctx, false, false)) <==>
            r.digest != Some(FileScan.ZERO_DIGEST)
  {
  }

  /** A sealed row without a digest, from a file that could not be seeked, never gets one: a verification
      that can read the file compares with zeros, so it reports the file, and saves it only if zeros is
      what it computed. */
  lemma NullDigestFlaggedExactly(cfg: Config, r: Row, stat: Stat, digest: Digest, ctx: Context)
    requires cfg.rehashLocked && r.offset == None && r.digest == None && r.stat.size == stat.size > 0
    ensures
      var hashed := Left(0, digest, ctx, false, false);
      && (Flagged(cfg, true, r, stat, hashed) <==> digest != FileScan.ZERO_DIGEST)
      && (digest != FileScan.ZERO_DIGEST ==> After(cfg, true, r, stat, hashed) == r)
  {
  }

  // ----- Inputs -----

  const PLAIN := Stat(10, 8, 0, 0, 1, 0, 1, 0)

  /** Options under which every path is locked. */
  function Locking(dryRun: bool, locked: bool): Config {
    Config(dryRun, false, false, true, (p: Path) => if locked then Hit else Miss, (p: Path) => Miss, (p: Path) => Miss)
  }

  /** An interrupted verification of an unchanged file leaves one byte of progress and no digest. */
  lemma SealBrokenExample(r': Row)
    requires r' == After(Locking(false, true), true, Row("a", None, Some([1]), PLAIN, None), PLAIN,
                         Left(1, [], Context(0, [], []), false, false))
    ensures r'.digest == None && r'.offset == Some(1)
  {
  }

  /** A file that can no longer be seeked loses its sealed digest to a change of ctime. */
  lemma SealNulledExample(r': Row)
    requires r' == After(Locking(false, true), true, Row("a", None, Some([1]), PLAIN, None), PLAIN.(ctimeSec := 2),
                         Left(0, [], Context(0, [], []), true, false))
    ensures r'.digest == None && r'.offset == None
  {
  }

  /** More allocated blocks turn a NULL digest into zeros. */
  lemma ZerosExample(r': Row, hashed: Left)
    requires r' == After(Locking(false, false), false, Row("a", None, None, PLAIN, None), PLAIN.(blocks := 16), hashed)
    ensures r'.digest == Some(FileScan.ZERO_DIGEST)
  {
  }

  /** A plain dry run reports an unchanged file. */
  lemma DryRunExample()
    ensures Flagged(Locking(true, true), true, Row("a", None, Some([1]), PLAIN, None), PLAIN,
                    Left(0, FileScan.ZERO_DIGEST, Context(0, [], []), false, false))
  {
    assert |FileScan.ZERO_DIGEST| == 64;
  }

  /** A file that can be seeked again is reported, and its row keeps NULL. */
  lemma NullDigestExample(hashed: Left)
    requires hashed == Left(0, [1], Context(0, [], []), false, false)
    ensures Flagged(Locking(false, true), true, Row("a", None, None, PLAIN, None), PLAIN, hashed)
    ensures After(Locking(false, true), true, Row("a", None, None, PLAIN, None), PLAIN, hashed).digest == None
  {
    assert |FileScan.ZERO_DIGEST| == 64;
  }
}
