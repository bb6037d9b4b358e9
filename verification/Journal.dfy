/** What a traversal meets, in order: the entries taken up, the blocks read, the files that cannot be read, and
    the looks at the deadlines. A journal only grows, and so do the readings of the clock beside it, so that
    what is said of every block and every entry does not depend on what a method chooses to return. */
module Journal {
  import opened Common

  const DB_CHECKPOINT_INTERVAL_NS := 14930016475

  /** `at` counts the readings of the clock before the event. */
  datatype Event =
    // An entry of the traversal is taken up, while a batch is active or not.
    | Entry(path: Path, active: bool, at: nat)
    // A block of the file, not empty, has been read; it ends at the byte `to`.
    | Block(path: Path, to: nat, at: nat)
    // The deadlines are looked at: the clock, the batch, and how much of the file is durable.
    | Look(path: Path, to: nat, ns: int, active: bool, startedNs: int, saved: nat, lasting: bool)
    // The file cannot be opened or read.
    | Trouble(path: Path)

  type Events = seq<Event>

  // ----- The age of a batch -----

  predicate CallsForLook(e: Event) {
    e.Block? || (e.Entry? && e.active)
  }

  /** The look belongs to the block or entry, it uses the first reading of the clock after it, and by that
      reading an active batch is younger than the interval. */
  predicate Answers(e: Event, look: Event, readings: seq<int>) {
    && CallsForLook(e) && look.Look?
    && look.path == e.path && look.to == (if e.Block? then e.to else 0)
    && e.at < |readings| && look.ns == readings[e.at]
    && (look.active ==> look.ns - look.startedNs < DB_CHECKPOINT_INTERVAL_NS)
  }

  /** Every block, and every entry met by an active batch, is followed by its look at once. */
  ghost predicate Attended(j: Events, readings: seq<int>) {
    forall i :: 0 <= i < |j| - 1 && CallsForLook(j[i]) ==> Answers(j[i], j[i + 1], readings)
  }

  /** No look is outstanding. */
  predicate Idle(j: Events) {
    j == [] || !CallsForLook(j[|j| - 1])
  }

  /** The last event waits for its look. */
  predicate Due(j: Events, path: Path, to: nat, at: nat) {
    j != [] && (j[|j| - 1] == Block(path, to, at) || (j[|j| - 1] == Entry(path, true, at) && to == 0))
  }

  // ----- The progress of a file -----

  /** Whatever of a file had been hashed an interval before a later look is durable at that look. */
  ghost predicate Prompt(j: Events) {
    forall k :: 0 <= k < |j| && j[k].Look? ==> InTime(j[..k], j[k])
  }

  ghost predicate InTime(j: Events, look: Event)
    requires look.Look?
  {
    look.lasting ==> forall i :: 0 <= i < |j| && Older(j[i], look) ==> j[i].to <= look.saved
  }

  predicate Older(e: Event, look: Event)
    requires look.Look?
  {
    e.Look? && e.path == look.path && look.ns - e.ns >= DB_CHECKPOINT_INTERVAL_NS
  }

  /** How far the file has been read. */
  function Position(j: Events, p: Path): nat {
    if j == [] then 0
    else
      var e := j[|j| - 1];
      if e.Block? && e.path == p then e.to else Position(j[..|j| - 1], p)
  }

  ghost predicate Unread(j: Events, p: Path) {
    forall i :: 0 <= i < |j| && j[i].path == p ==> !j[i].Block? && (j[i].Look? ==> j[i].to == 0)
  }

  /** The files taken up, in order. */
  function Entries(j: Events): seq<Path> {
    if j == [] then []
    else
      var e := j[|j| - 1];
      Entries(j[..|j| - 1]) + if e.Entry? then [e.path] else []
  }

  predicate Troubled(j: Events, p: Path) {
    Trouble(p) in j
  }

  predicate Untroubled(j: Events) {
    forall e :: e in j ==> !e.Trouble?
  }

  lemma Appended(j: Events, e: Event)
    ensures Idle(j + [e]) == !CallsForLook(e)
    ensures Entries(j + [e]) == Entries(j) + if e.Entry? then [e.path] else []
    ensures forall p :: Position(j + [e], p) == if e.Block? && e.path == p then e.to else Position(j, p)
    ensures forall p :: Troubled(j + [e], p) <==> Troubled(j, p) || e == Trouble(p)
    ensures Unread(j, e.path) && !e.Block? && (e.Look? ==> e.to == 0) ==> Unread(j + [e], e.path)
  {
    assert (j + [e])[..|j|] == j;
  }

  lemma {:induction false} NothingRead(j: Events, p: Path)
    requires Unread(j, p)
    ensures Position(j, p) == 0
  {
    if j != [] {
      NothingRead(j[..|j| - 1], p);
    }
  }

  // ----- What every journal keeps -----

  /** No look is missing, old or late, and nothing has been read of a file that has not been taken up. */
  ghost predicate Noted(taken: set<Path>, j: Events, readings: seq<int>) {
    && Attended(j, readings) && Prompt(j)
    && forall p :: p !in taken ==> Unread(j, p)
  }

  lemma NotedEvent(taken: set<Path>, j: Events, readings: seq<int>, e: Event)
    requires Noted(taken, j, readings) && !e.Look? && Idle(j) && (e.Block? ==> e.path in taken)
    ensures Noted(taken, j + [e], readings)
  {
    PromptEvent(j, e);
  }

  lemma NotedLook(taken: set<Path>, j: Events, readings: seq<int>, look: Event)
    requires Noted(taken, j, readings) && look.Look? && InTime(j, look) && (look.to > 0 ==> look.path in taken)
    requires j != [] && Answers(j[|j| - 1], look, readings)
    ensures Noted(taken, j + [look], readings)
  {
    PromptEvent(j, look);
  }

  lemma PromptEvent(j: Events, e: Event)
    requires Prompt(j) && (e.Look? ==> InTime(j, e))
    ensures Prompt(j + [e])
  {
    forall k | 0 <= k < |j + [e]| && (j + [e])[k].Look?
      ensures InTime((j + [e])[..k], (j + [e])[k])
    {
      assert (j + [e])[..k] == j[..k] && j[..|j|] == j;
    }
  }

  lemma NotedReading(taken: set<Path>, j: Events, readings: seq<int>, more: seq<int>)
    requires Noted(taken, j, readings) && readings <= more
    ensures Noted(taken, j, more)
  {
  }

  // ----- One pass over a file -----

  /** The looks of a pass from `start` that has come to `reached`: whatever they found beyond the last safe
      point is no older than that point. */
  ghost predicate Paced(j: Events, p: Path, start: nat, reached: nat, safeNs: int, safe: nat) {
    && start <= safe <= reached
    && forall i :: 0 <= i < |j| && j[i].Look? && j[i].path == p ==>
         j[i].to == 0 || (start < j[i].to <= reached && (j[i].to <= safe || safeNs <= j[i].ns))
  }

  lemma PacedAtFirst(j: Events, p: Path, start: nat, ns: int)
    requires Unread(j, p)
    ensures Paced(j, p, start, start, ns, start) && Position(j, p) == 0
  {
    NothingRead(j, p);
  }

  lemma PacedBlock(j: Events, start: nat, reached: nat, safeNs: int, safe: nat, e: Event)
    requires e.Block? && Paced(j, e.path, start, reached, safeNs, safe) && reached <= e.to
    ensures Paced(j + [e], e.path, start, e.to, safeNs, safe)
  {
  }

  /** A look within the interval of the last safe point. */
  lemma PacedLook(j: Events, start: nat, reached: nat, safeNs: int, safe: nat, look: Event)
    requires look.Look? && Paced(j, look.path, start, reached, safeNs, safe) && look.to == reached > start
    requires safeNs <= look.ns < safeNs + DB_CHECKPOINT_INTERVAL_NS
    requires look.lasting && safe > start ==> look.saved == safe
    ensures InTime(j, look) && Paced(j + [look], look.path, start, reached, safeNs, safe)
  {
  }

  /** A look that has made everything safe. */
  lemma PacedCheckpoint(j: Events, start: nat, reached: nat, safeNs: int, safe: nat, look: Event)
    requires look.Look? && Paced(j, look.path, start, reached, safeNs, safe) && look.to == reached > start
    requires look.lasting ==> look.saved == reached
    ensures InTime(j, look) && Paced(j + [look], look.path, start, reached, look.ns, reached)
  {
  }
}
