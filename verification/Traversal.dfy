/** Which files the directory traversal reaches: the loop of file_list.c around the file processing,
    with directory_access.c. */
module Traversal {
  import opened Common
  import opened Status
  import opened Soundness
  import FileScan

  /** What fts finds below a root, the entries of a directory in the order fts returns them. */
  datatype Node = File(name: string) | Dir(name: string, children: seq<Node>) | Other(name: string)

  /** `access` is what the check of a directory answers. `maxdepth` is -1 when not given. */
  datatype Filters = Filters(
    cfg: Config, includeGiven: bool, lockGiven: bool, maxdepth: int, access: Path -> Access)

  const ROOT_PATH: Path := "."

  function Child(level: nat, dir: Path, name: string): Path {
    if level == 0 then name else dir + "/" + name
  }

  predicate TooDeep(f: Filters, level: nat) {
    f.maxdepth > -1 && level > f.maxdepth + 1
  }

  /** An ignored directory is left out only when no include or lock pattern was given; one that cannot
      be entered, when no include pattern was given. */
  predicate Descends(f: Filters, dir: Path) {
    match FileScan.IsIgnored(f.cfg, dir)
    case None => false
    case Some(true) => f.includeGiven || f.lockGiven
    case Some(false) => f.access(dir) == Allowed || f.includeGiven
  }

  // ----- The pruned walk -----

  function Walk(f: Filters, n: Node, level: nat, path: Path): seq<Path>
    decreases n
  {
    if TooDeep(f, level) then [] else
      match n
      case File(_) => [path]
      case Other(_) => []
      case Dir(_, children) => if Descends(f, path) then WalkAll(f, children, level, path) else []
  }

  function WalkAll(f: Filters, ns: seq<Node>, level: nat, dir: Path): seq<Path>
    decreases ns
  {
    if ns == [] then []
    else Walk(f, ns[0], level + 1, Child(level, dir, ns[0].name)) + WalkAll(f, ns[1..], level, dir)
  }

  /** An entry fts has not returned yet. */
  datatype Entry = Entry(node: Node, level: nat, path: Path)

  function WalkList(f: Filters, es: seq<Entry>): seq<Path> {
    if es == [] then [] else Walk(f, es[0].node, es[0].level, es[0].path) + WalkList(f, es[1..])
  }

  function Entries(ns: seq<Node>, level: nat, dir: Path): seq<Entry> {
    if ns == [] then []
    else [Entry(ns[0], level + 1, Child(level, dir, ns[0].name))] + Entries(ns[1..], level, dir)
  }

  lemma {:induction false} WalkListAppend(f: Filters, a: seq<Entry>, b: seq<Entry>)
    ensures WalkList(f, a + b) == WalkList(f, a) + WalkList(f, b)
  {
    hide Walk;
    if a == [] {
      assert a + b == b;
    } else {
      var here, more, rest := Walk(f, a[0].node, a[0].level, a[0].path), WalkList(f, a[1..]), WalkList(f, b);
      assert WalkList(f, a + b) == here + (more + rest) by {
        WalkListAppend(f, a[1..], b);
        assert (a + b)[0] == a[0] && (a + b)[1..] == a[1..] + b;
      }
      assert here + (more + rest) == (here + more) + rest;
    }
  }

  lemma {:induction false} WalkListEntries(f: Filters, ns: seq<Node>, level: nat, dir: Path)
    ensures WalkList(f, Entries(ns, level, dir)) == WalkAll(f, ns, level, dir)
  {
    hide Walk;
    if ns != [] {
      WalkListEntries(f, ns[1..], level, dir);
      assert Entries(ns, level, dir)[1..] == Entries(ns[1..], level, dir);
    }
  }

  function Size(n: Node): (k: nat)
    ensures k > 0
    decreases n
  {
    1 + if n.Dir? then SizeAll(n.children) else 0
  }

  function SizeAll(ns: seq<Node>): nat
    decreases ns
  {
    if ns == [] then 0 else Size(ns[0]) + SizeAll(ns[1..])
  }

  function Weight(es: seq<Entry>): nat {
    if es == [] then 0 else Size(es[0].node) + Weight(es[1..])
  }

  lemma {:induction false} WeightOfEntries(ns: seq<Node>, level: nat, dir: Path, rest: seq<Entry>)
    ensures Weight(Entries(ns, level, dir) + rest) == SizeAll(ns) + Weight(rest)
  {
    var es := Entries(ns, level, dir) + rest;
    if ns == [] {
      assert es == rest;
    } else {
      WeightOfEntries(ns[1..], level, dir, rest);
      assert es[1..] == Entries(ns[1..], level, dir) + rest;
    }
  }

  /** The directory case: build the path, apply the filters, check the access. */
  method EnterDirectory(f: Filters, path: Path) returns (descend: bool, status: Return)
    ensures status == if FileScan.IsIgnored(f.cfg, path).Some? then SUCCESS else FAILURE
    ensures descend == Descends(f, path)
  {
    var ignored := FileScan.IsIgnored(f.cfg, path);
    if ignored == None {
      return false, FAILURE;
    }
    status := SUCCESS;
    if ignored == Some(true) {
      descend := f.includeGiven || f.lockGiven;
    } else {
      descend := f.access(path) == Allowed || f.includeGiven;
    }
  }

  /** The directories of the tree. */
  function Directories(n: Node, level: nat, path: Path): set<Path>
    decreases n
  {
    if n.Dir? then {path} + DirectoriesOf(n.children, level, path) else {}
  }

  function DirectoriesOf(ns: seq<Node>, level: nat, dir: Path): set<Path>
    decreases ns
  {
    if ns == [] then {}
    else Directories(ns[0], level + 1, Child(level, dir, ns[0].name)) + DirectoriesOf(ns[1..], level, dir)
  }

  ghost predicate AllWithin(es: seq<Entry>, dirs: set<Path>) {
    forall e :: e in es ==> Directories(e.node, e.level, e.path) <= dirs
  }

  lemma {:induction false} EntriesWithin(ns: seq<Node>, level: nat, dir: Path)
    ensures AllWithin(Entries(ns, level, dir), DirectoriesOf(ns, level, dir))
  {
    if ns != [] {
      EntriesWithin(ns[1..], level, dir);
    }
  }

  /** The traversal hands over the files of the pruned walk, in its order. Only an interruption, or a directory
      on which the patterns break, cuts the sequence short. */
  method Traverse(f: Filters, root: Node, fate: Fate) returns (files: seq<Path>, interrupted: bool, failed: bool)
    ensures interrupted ==> fate.signals
    ensures files <= Walk(f, root, 0, ROOT_PATH)
    ensures !interrupted && !failed ==> files == Walk(f, root, 0, ROOT_PATH)
    ensures failed ==> exists d :: d in Directories(root, 0, ROOT_PATH) && FileScan.IsIgnored(f.cfg, d) == None
  {
    hide FileScan.IsIgnored;
    var pending := [Entry(root, 0, ROOT_PATH)];
    files, interrupted, failed := [], false, false;
    while pending != []
      invariant files + WalkList(f, pending) == Walk(f, root, 0, ROOT_PATH)
      invariant AllWithin(pending, Directories(root, 0, ROOT_PATH))
      decreases Weight(pending)
    {
      var signal: bool := *;
      if signal && fate.signals {
        interrupted := true;
        return;
      }
      var e, rest := pending[0], pending[1..];
      if TooDeep(f, e.level) {
        pending := rest;
        continue;
      }
      match e.node {
        case File(_) =>
          files := files + [e.path];
          pending := rest;
        case Other(_) =>
          pending := rest;
        case Dir(_, children) =>
          var descend, status := EnterDirectory(f, e.path);
          if status != SUCCESS {
            failed := true;
            return;
          }
          if descend {
            var inside := Entries(children, e.level, e.path);
            WalkListAppend(f, inside, rest);
            WalkListEntries(f, children, e.level, e.path);
            WeightOfEntries(children, e.level, e.path, rest);
            EntriesWithin(children, e.level, e.path);
            pending := inside + rest;
          } else {
            pending := rest;
          }
      }
    }
  }

  // ----- Each path once -----

  predicate SlashFree(name: string) {
    '/' !in name
  }

  /** What a file system guarantees: names without a slash, different within a directory. */
  predicate Tidy(n: Node)
    decreases n
  {
    n.Dir? ==>
      && (forall c :: c in n.children ==> SlashFree(c.name) && Tidy(c))
      && (forall i, j :: 0 <= i < j < |n.children| ==> n.children[i].name != n.children[j].name)
  }

  predicate Once(ps: seq<Path>) {
    forall i, j :: 0 <= i < j < |ps| ==> ps[i] != ps[j]
  }

  predicate AtOrBelow(p: Path, q: Path) {
    p <= q && (|p| < |q| ==> q[|p|] == '/')
  }

  lemma {:induction false} WalkStaysBelow(f: Filters, n: Node, level: nat, path: Path)
    requires level > 0
    ensures forall q :: q in Walk(f, n, level, path) ==> AtOrBelow(path, q)
    decreases n
  {
    if n.Dir? {
      WalkAllStaysBelow(f, n.children, level, path);
      forall q | q in WalkAll(f, n.children, level, path) ensures AtOrBelow(path, q) {
        var c :| c in n.children && AtOrBelow(Child(level, path, c.name), q);
        assert Child(level, path, c.name)[|path|] == '/';
      }
    }
  }

  lemma {:induction false} WalkAllStaysBelow(f: Filters, ns: seq<Node>, level: nat, dir: Path)
    ensures forall q :: q in WalkAll(f, ns, level, dir) ==>
              exists c :: c in ns && AtOrBelow(Child(level, dir, c.name), q)
    decreases ns
  {
    if ns != [] {
      WalkStaysBelow(f, ns[0], level + 1, Child(level, dir, ns[0].name));
      WalkAllStaysBelow(f, ns[1..], level, dir);
      assert ns[0] in ns;
    }
  }

  function UpToSlash(s: string): string {
    if s == "" || s[0] == '/' then "" else [s[0]] + UpToSlash(s[1..])
  }

  lemma {:induction false} FirstName(name: string, s: string)
    requires SlashFree(name) && AtOrBelow(name, s)
    ensures UpToSlash(s) == name
  {
    if name != "" {
      assert s[0] == name[0];
      FirstName(name[1..], s[1..]);
    }
  }

  /** Nothing lies at or below two different entries of a directory. */
  lemma SiblingsApart(level: nat, dir: Path, a: string, b: string, q: Path)
    requires SlashFree(a) && SlashFree(b)
    requires AtOrBelow(Child(level, dir, a), q) && AtOrBelow(Child(level, dir, b), q)
    ensures a == b
  {
    var k := if level == 0 then 0 else |dir| + 1;
    assert a == q[k..][..|a|] && b == q[k..][..|b|];
    FirstName(a, q[k..]);
    FirstName(b, q[k..]);
  }

  lemma OnceAppend(a: seq<Path>, b: seq<Path>)
    requires Once(a) && Once(b) && forall q :: q in a ==> q !in b
    ensures Once(a + b)
  {
    forall i, j | 0 <= i < j < |a + b| ensures (a + b)[i] != (a + b)[j] {
      assert i < |a| ==> (a + b)[i] in a;
      assert j >= |a| ==> (a + b)[j] in b;
    }
  }

  lemma {:induction false} WalkOnce(f: Filters, n: Node, level: nat, path: Path)
    requires Tidy(n)
    ensures Once(Walk(f, n, level, path))
    decreases n
  {
    if n.Dir? {
      WalkAllOnce(f, n.children, level, path);
    }
  }

  lemma FirstApart(f: Filters, ns: seq<Node>, level: nat, dir: Path, q: Path)
    requires ns != [] && forall c :: c in ns ==> SlashFree(c.name)
    requires forall c :: c in ns[1..] ==> c.name != ns[0].name
    requires q in Walk(f, ns[0], level + 1, Child(level, dir, ns[0].name))
    ensures q !in WalkAll(f, ns[1..], level, dir)
  {
    WalkStaysBelow(f, ns[0], level + 1, Child(level, dir, ns[0].name));
    WalkAllStaysBelow(f, ns[1..], level, dir);
    if c :| c in ns[1..] && AtOrBelow(Child(level, dir, c.name), q) {
      SiblingsApart(level, dir, ns[0].name, c.name, q);
      assert false;
    }
  }

  lemma {:induction false} WalkAllOnce(f: Filters, ns: seq<Node>, level: nat, dir: Path)
    requires forall c :: c in ns ==> SlashFree(c.name) && Tidy(c)
    requires forall i, j :: 0 <= i < j < |ns| ==> ns[i].name != ns[j].name
    ensures Once(WalkAll(f, ns, level, dir))
    decreases ns
  {
    if ns != [] {
      var path := Child(level, dir, ns[0].name);
      WalkOnce(f, ns[0], level + 1, path);
      WalkAllOnce(f, ns[1..], level, dir);
      forall q | q in Walk(f, ns[0], level + 1, path) ensures q !in WalkAll(f, ns[1..], level, dir) {
        FirstApart(f, ns, level, dir, q);
      }
      OnceAppend(Walk(f, ns[0], level + 1, path), WalkAll(f, ns[1..], level, dir));
    }
  }

  /** The traversal hands over no path twice. */
  lemma EachPathOnce(f: Filters, root: Node, files: seq<Path>)
    requires Tidy(root) && files <= Walk(f, root, 0, ROOT_PATH)
    ensures Once(files)
  {
    WalkOnce(f, root, 0, ROOT_PATH);
  }

  // ----- All files, with the directories above them -----

  datatype Found = Found(path: Path, level: nat, dirs: seq<Path>)

  function Files(n: Node, level: nat, path: Path, above: seq<Path>): seq<Found>
    decreases n
  {
    match n
    case File(_) => [Found(path, level, above)]
    case Other(_) => []
    case Dir(_, children) => FilesOf(children, level, path, above + [path])
  }

  function FilesOf(ns: seq<Node>, level: nat, dir: Path, above: seq<Path>): seq<Found>
    decreases ns
  {
    if ns == [] then []
    else Files(ns[0], level + 1, Child(level, dir, ns[0].name), above) + FilesOf(ns[1..], level, dir, above)
  }

  predicate DescendsAll(f: Filters, dirs: seq<Path>) {
    forall d :: d in dirs ==> Descends(f, d)
  }

  predicate Admitted(f: Filters, e: Found) {
    !TooDeep(f, e.level) && DescendsAll(f, e.dirs)
  }

  function Select(es: seq<Found>, wanted: Found -> bool): seq<Path> {
    if es == [] then []
    else (if wanted(es[0]) then [es[0].path] else []) + Select(es[1..], wanted)
  }

  lemma {:induction false} SelectAppend(a: seq<Found>, b: seq<Found>, wanted: Found -> bool)
    ensures Select(a + b, wanted) == Select(a, wanted) + Select(b, wanted)
  {
    if a == [] {
      assert a + b == b;
    } else {
      var here, more, rest := if wanted(a[0]) then [a[0].path] else [], Select(a[1..], wanted), Select(b, wanted);
      assert Select(a + b, wanted) == here + (more + rest) by {
        SelectAppend(a[1..], b, wanted);
        assert (a + b)[0] == a[0] && (a + b)[1..] == a[1..] + b;
      }
      assert here + (more + rest) == (here + more) + rest;
    }
  }

  lemma {:induction false} SelectNone(es: seq<Found>, wanted: Found -> bool)
    requires forall e :: e in es ==> !wanted(e)
    ensures Select(es, wanted) == []
  {
    if es != [] {
      assert es[0] in es;
      SelectNone(es[1..], wanted);
    }
  }

  /** Files lie below everything above their directory. */
  lemma {:induction false} FilesBelow(n: Node, level: nat, path: Path, above: seq<Path>)
    ensures forall e :: e in Files(n, level, path, above) ==> e.level >= level && above <= e.dirs
    ensures forall e :: e in Files(n, level, path, above) && n.Dir? ==> path in e.dirs
    decreases n
  {
    if n.Dir? {
      FilesOfBelow(n.children, level, path, above + [path]);
      forall e | e in Files(n, level, path, above) ensures above <= e.dirs && path in e.dirs {
        assert e.dirs[|above|] == path;
      }
    }
  }

  lemma {:induction false} FilesOfBelow(ns: seq<Node>, level: nat, dir: Path, above: seq<Path>)
    ensures forall e :: e in FilesOf(ns, level, dir, above) ==> e.level > level && above <= e.dirs
    decreases ns
  {
    if ns != [] {
      FilesBelow(ns[0], level + 1, Child(level, dir, ns[0].name), above);
      FilesOfBelow(ns[1..], level, dir, above);
    }
  }

  /** The walk reaches exactly the files that are not too deep and below only directories it
      descends into. */
  lemma {:induction false} WalkSelects(f: Filters, n: Node, level: nat, path: Path, above: seq<Path>)
    ensures Select(Files(n, level, path, above), e => Admitted(f, e))
         == if DescendsAll(f, above) then Walk(f, n, level, path) else []
    decreases n
  {
    if TooDeep(f, level) {
      FilesBelow(n, level, path, above);
      SelectNone(Files(n, level, path, above), e => Admitted(f, e));
    } else if n.Dir? {
      WalkAllSelects(f, n.children, level, path, above + [path]);
      assert DescendsAll(f, above + [path]) <==> DescendsAll(f, above) && Descends(f, path);
    }
  }

  lemma {:induction false} WalkAllSelects(f: Filters, ns: seq<Node>, level: nat, dir: Path, above: seq<Path>)
    ensures Select(FilesOf(ns, level, dir, above), e => Admitted(f, e))
         == if DescendsAll(f, above) then WalkAll(f, ns, level, dir) else []
    decreases ns
  {
    if ns != [] {
      var path := Child(level, dir, ns[0].name);
      WalkSelects(f, ns[0], level + 1, path, above);
      WalkAllSelects(f, ns[1..], level, dir, above);
      SelectAppend(Files(ns[0], level + 1, path, above), FilesOf(ns[1..], level, dir, above), e => Admitted(f, e));
    }
  }

  function AllFiles(root: Node): seq<Found> {
    Files(root, 0, ROOT_PATH, [])
  }

  lemma WalkIsSelection(f: Filters, root: Node)
    ensures Walk(f, root, 0, ROOT_PATH) == Select(AllFiles(root), e => Admitted(f, e))
  {
    WalkSelects(f, root, 0, ROOT_PATH, []);
  }

  // ----- The depth limit -----

  lemma {:induction false} LevelIsDepth(n: Node, level: nat, path: Path, above: seq<Path>)
    requires level == |above|
    ensures forall e :: e in Files(n, level, path, above) ==> e.level == |e.dirs|
    decreases n
  {
    if n.Dir? {
      LevelsAreDepths(n.children, level, path, above + [path]);
    }
  }

  lemma {:induction false} LevelsAreDepths(ns: seq<Node>, level: nat, dir: Path, above: seq<Path>)
    requires level + 1 == |above|
    ensures forall e :: e in FilesOf(ns, level, dir, above) ==> e.level == |e.dirs|
    decreases ns
  {
    if ns != [] {
      LevelIsDepth(ns[0], level + 1, Child(level, dir, ns[0].name), above);
      LevelsAreDepths(ns[1..], level, dir, above);
    }
  }

  /** `dirs` of a file starts with the root. --maxdepth=0 admits the files of the root itself, 1 those one
      directory below, and so on; without it nothing is too deep. */
  lemma MaxdepthCountsDirectories(f: Filters, root: Node, e: Found)
    requires e in AllFiles(root)
    ensures f.maxdepth == -1 ==> !TooDeep(f, e.level)
    ensures f.maxdepth >= 0 ==> (TooDeep(f, e.level) <==> |e.dirs| - 1 > f.maxdepth)
  {
    LevelIsDepth(root, 0, ROOT_PATH, []);
  }

  /** A file is reached exactly when it is not too deep and every directory above it, the root included, is
      descended into. With neither include nor lock patterns that means not ignored and accessible; with
      include patterns, every directory is. */
  lemma ReachedExactly(f: Filters, root: Node, p: Path)
    requires Compiles(f.cfg)
    ensures p in Walk(f, root, 0, ROOT_PATH) <==>
              exists e :: e in AllFiles(root) && e.path == p && Admitted(f, e)
    ensures f.includeGiven ==> forall d :: Descends(f, d)
    ensures !f.includeGiven && !f.lockGiven ==> forall d ::
              Descends(f, d) <==> FileScan.IsIgnored(f.cfg, d) == Some(false) && f.access(d) == Allowed
  {
    WalkIsSelection(f, root);
    SelectMembers(AllFiles(root), e => Admitted(f, e), p);
    forall d ensures FileScan.IsIgnored(f.cfg, d).Some? {
    }
  }

  lemma {:induction false} SelectMembers(es: seq<Found>, wanted: Found -> bool, p: Path)
    ensures p in Select(es, wanted) <==> exists e :: e in es && e.path == p && wanted(e)
  {
    if es != [] {
      SelectMembers(es[1..], wanted, p);
      assert es[0] in es;
    }
  }

  // ----- Lock patterns and ignore patterns -----

  predicate Accessible(f: Filters, dirs: seq<Path>) {
    forall d :: d in dirs ==> f.access(d) == Allowed
  }

  predicate NoErrors(f: Filters, dirs: seq<Path>) {
    forall d :: d in dirs ==> FileScan.IsIgnored(f.cfg, d).Some?
  }

  /** The per-file decision: a locked file stays visible. */
  predicate Skipped(f: Filters, p: Path) {
    FileScan.IsIgnored(f.cfg, p) == Some(true) && f.cfg.locks(p) != Hit
  }

  lemma {:induction false} SelectHolds(es: seq<Found>, wanted: Found -> bool, e: Found)
    requires e in es && wanted(e)
    ensures e.path in Select(es, wanted)
  {
    if e != es[0] {
      SelectHolds(es[1..], wanted, e);
    }
  }

  /** With lock patterns, a locked file within the depth limit and below only accessible directories
      is reached and not skipped, whatever is ignored. */
  lemma LockedFilesAreReached(f: Filters, root: Node, e: Found)
    requires f.lockGiven && f.cfg.locks(e.path) == Hit
    requires e in AllFiles(root) && !TooDeep(f, e.level)
    requires Accessible(f, e.dirs) && NoErrors(f, e.dirs)
    ensures e.path in Walk(f, root, 0, ROOT_PATH) && !Skipped(f, e.path)
  {
    WalkIsSelection(f, root);
    SelectHolds(AllFiles(root), e => Admitted(f, e), e);
  }

  /** Everything below an ignored directory is ignored. */
  predicate IgnoresDownward(f: Filters, es: seq<Found>) {
    forall e, d :: e in es && d in e.dirs && FileScan.IsIgnored(f.cfg, d) == Some(true) ==>
        FileScan.IsIgnored(f.cfg, e.path) == Some(true)
  }

  function Unskipped(f: Filters, ps: seq<Path>): seq<Path> {
    if ps == [] then []
    else (if Skipped(f, ps[0]) then [] else [ps[0]]) + Unskipped(f, ps[1..])
  }

  /** What the per-file filter alone would process. */
  predicate Wanted(f: Filters, e: Found) {
    !TooDeep(f, e.level) && Accessible(f, e.dirs) && !Skipped(f, e.path)
  }

  lemma {:induction false} UnskippedSelection(f: Filters, es: seq<Found>)
    requires !f.includeGiven && !f.lockGiven && IgnoresDownward(f, es)
    requires forall e :: e in es ==> f.cfg.locks(e.path) == Miss && NoErrors(f, e.dirs)
    ensures Unskipped(f, Select(es, e => Admitted(f, e))) == Select(es, e => Wanted(f, e))
  {
    if es != [] {
      var e := es[0];
      assert e in es;
      UnskippedSelection(f, es[1..]);
      assert !Skipped(f, e.path) ==> (Admitted(f, e) <==> Wanted(f, e));
      var more := Select(es[1..], e => Admitted(f, e));
      if Admitted(f, e) {
        assert Select(es, e => Admitted(f, e)) == [e.path] + more;
        assert ([e.path] + more)[1..] == more;
        assert Skipped(f, e.path) ==> [] + Unskipped(f, more) == Unskipped(f, more);
      } else {
        assert Select(es, e => Admitted(f, e)) == [] + more == more;
      }
      var wanted := Select(es[1..], e => Wanted(f, e));
      assert Select(es, e => Wanted(f, e)) == (if Wanted(f, e) then [e.path] else []) + wanted;
    }
  }

  /** With neither include nor lock patterns, leaving ignored directories out changes nothing: the
      files processed are those the per-file filter would let through. */
  lemma PruningIsFiltering(f: Filters, root: Node)
    requires !f.includeGiven && !f.lockGiven && IgnoresDownward(f, AllFiles(root))
    requires forall e :: e in AllFiles(root) ==> f.cfg.locks(e.path) == Miss && NoErrors(f, e.dirs)
    ensures Unskipped(f, Walk(f, root, 0, ROOT_PATH)) == Select(AllFiles(root), e => Wanted(f, e))
  {
    WalkIsSelection(f, root);
    UnskippedSelection(f, AllFiles(root));
  }
}
