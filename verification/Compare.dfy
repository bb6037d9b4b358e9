/** The comparison of two databases: db_compare.c. */
module Compare {
  import opened Common
  import opened Status
  import opened Sha512
  import opened Store
  import opened Soundness
  import opened Lexicographic
  import FileScan

  /** What a comparison looks at: the digest of every path, NULL being a value. */
  type Digests = map<Path, Option<Digest>>

  ghost function DigestsOf(t: Table): (m: Digests)
    requires UniquePaths(t)
    ensures forall p :: p in m <==> HasPath(t, p)
    ensures forall id :: id in t ==> t[id].path in m && m[t[id].path] == t[id].digest
  {
    map id | id in t :: t[id].path := t[id].digest
  }

  // ----- The three queries -----

  /** Rows of the first table without a partner in the second. */
  function OnlyIn(m1: Digests, m2: Digests): set<Path> {
    set p | p in m1 && p !in m2
  }

  /** Rows of both tables with different digests: `IS NOT` takes NULL for a value. */
  function Mismatched(m1: Digests, m2: Digests): set<Path> {
    set p | p in m1 && p in m2 && m2[p] != m1[p]
  }

  function Bytes(p: Path): seq<int> {
    seq(|p|, i requires 0 <= i < |p| => p[i] as int)
  }

  lemma BytesIdentify(p: Path, q: Path)
    ensures Bytes(p) == Bytes(q) <==> p == q
  {
    if Bytes(p) == Bytes(q) {
      assert |p| == |Bytes(p)| == |q|;
      forall i | 0 <= i < |p| ensures p[i] == q[i] {
        assert Bytes(p)[i] == Bytes(q)[i];
      }
    }
  }

  predicate Before(p: Path, q: Path) {
    Lex(Bytes(p), Bytes(q)) < 0
  }

  /** `ORDER BY relative_path ASC`: every path of the result once, in the order of its bytes. */
  ghost predicate Lists(rows: seq<Path>, paths: set<Path>) {
    && (forall i, j :: 0 <= i < j < |rows| ==> Before(rows[i], rows[j]))
    && (forall p :: p in paths <==> p in rows)
  }

  lemma {:induction false} Least(paths: set<Path>) returns (least: Path)
    requires paths != {}
    ensures least in paths && forall p :: p in paths && p != least ==> Before(least, p)
    decreases paths
  {
    var q := Pick(paths);
    if paths == {q} {
      return q;
    }
    var r := Least(paths - {q});
    LexSwap(Bytes(q), Bytes(r));
    LexEqual(Bytes(q), Bytes(r));
    BytesIdentify(q, r);
    least := if Before(q, r) then q else r;
    forall p | p in paths && p != least ensures Before(least, p) {
      if least == q && p != r {
        assert Before(r, p);
        LexTransitive(Bytes(q), Bytes(r), Bytes(p));
      }
    }
  }

  /** A query with an order has a result, and only one. */
  lemma {:induction false} ListingExists(paths: set<Path>) returns (rows: seq<Path>)
    ensures Lists(rows, paths)
    decreases paths
  {
    if paths == {} {
      return [];
    }
    var first := Least(paths);
    var rest := ListingExists(paths - {first});
    rows := [first] + rest;
  }

  lemma BeforeIrreflexive(p: Path)
    ensures !Before(p, p)
  {
    LexSwap(Bytes(p), Bytes(p));
  }

  lemma BeforeAsymmetric(p: Path, q: Path)
    requires Before(p, q)
    ensures !Before(q, p)
  {
    LexSwap(Bytes(p), Bytes(q));
  }

  lemma ListsTail(rows: seq<Path>, paths: set<Path>)
    requires Lists(rows, paths) && rows != []
    ensures Lists(rows[1..], paths - {rows[0]})
  {
    BeforeIrreflexive(rows[0]);
    assert forall p :: p in rows <==> p == rows[0] || p in rows[1..];
    forall p | p in rows[1..] ensures p != rows[0] {
      var i :| 0 <= i < |rows[1..]| && rows[1..][i] == p;
      assert Before(rows[0], rows[i + 1]);
    }
  }

  lemma FirstIsLeast(rows: seq<Path>, paths: set<Path>, p: Path)
    requires Lists(rows, paths) && p in paths
    ensures rows != [] && rows[0] in paths && (p == rows[0] || Before(rows[0], p))
  {
    assert p in rows;
    var i :| 0 <= i < |rows| && rows[i] == p;
    assert rows[0] in rows;
  }

  lemma EmptyListing(rows: seq<Path>, paths: set<Path>)
    requires Lists(rows, paths)
    ensures rows == [] <==> paths == {}
  {
    if rows != [] {
      assert rows[0] in paths;
    } else {
      forall p ensures p !in paths {
        assert p !in rows;
      }
    }
  }

  lemma {:induction false} ListingUnique(a: seq<Path>, b: seq<Path>, paths: set<Path>)
    requires Lists(a, paths) && Lists(b, paths)
    ensures a == b
    decreases |a|
  {
    EmptyListing(a, paths);
    EmptyListing(b, paths);
    if paths != {} {
      var p := Pick(paths);
      FirstIsLeast(a, paths, p);
      FirstIsLeast(b, paths, a[0]);
      FirstIsLeast(a, paths, b[0]);
      if a[0] != b[0] {
        BeforeAsymmetric(a[0], b[0]);
      }
      ListsTail(a, paths);
      ListsTail(b, paths);
      ListingUnique(a[1..], b[1..], paths - {a[0]});
      assert a == [a[0]] + a[1..] && b == [b[0]] + b[1..];
    }
  }

  // ----- Running the queries -----

  /** Put a new path into its place. */
  method Place(rows: seq<Path>, p: Path, ghost paths: set<Path>) returns (r: seq<Path>)
    requires Lists(rows, paths) && p !in paths
    ensures Lists(r, paths + {p})
  {
    var i := 0;
    while i < |rows| && Before(rows[i], p)
      invariant 0 <= i <= |rows| && forall k :: 0 <= k < i ==> Before(rows[k], p)
    {
      i := i + 1;
    }
    forall k | i <= k < |rows| ensures Before(p, rows[k]) {
      NotBefore(rows[i], p);
      if k > i {
        BeforeTransitive(p, rows[i], rows[k]);
      }
    }
    r := rows[..i] + [p] + rows[i..];
    forall q ensures q in paths + {p} <==> q in r {
      assert q in rows <==> q in rows[..i] || q in rows[i..] by {
        assert rows == rows[..i] + rows[i..];
      }
    }
  }

  lemma NotBefore(q: Path, p: Path)
    requires q != p && !Before(q, p)
    ensures Before(p, q)
  {
    LexSwap(Bytes(p), Bytes(q));
    LexEqual(Bytes(q), Bytes(p));
    BytesIdentify(q, p);
  }

  lemma BeforeTransitive(p: Path, q: Path, r: Path)
    requires Before(p, q) && Before(q, r)
    ensures Before(p, r)
  {
    LexTransitive(Bytes(p), Bytes(q), Bytes(r));
  }

  function Selected(t: Table, wanted: Row -> bool): set<Path> {
    set id | id in t && wanted(t[id]) :: t[id].path
  }

  /** Scan a table and keep the paths of the wanted rows in order. */
  method Select(t: Table, wanted: Row -> bool) returns (rows: seq<Path>)
    requires UniquePaths(t)
    ensures Lists(rows, Selected(t, wanted))
  {
    hide Lists;
    rows := [];
    ghost var found: set<Path> := {};
    EmptyLists();
    var rest := t.Keys;
    while rest != {}
      invariant rest <= t.Keys && Lists(rows, found)
      invariant found == set id | id in t && id !in rest && wanted(t[id]) :: t[id].path
      decreases |rest|
    {
      ghost var some := Pick(rest);
      var id :| id in rest;
      if wanted(t[id]) {
        forall k | k in t && k !in rest && wanted(t[k]) ensures t[k].path != t[id].path {
          if t[k].path == t[id].path {
            SamePath(t, k, id);
          }
        }
        rows := Place(rows, t[id].path, found);
        found := found + {t[id].path};
      }
      rest := rest - {id};
    }
    assert found == Selected(t, wanted);
  }

  lemma EmptyLists()
    ensures Lists([], {})
  {
  }

  /** A row without a partner in the other table. */
  function Unmatched(t: Table): Row -> bool {
    (r: Row) => !HasPath(t, r.path)
  }

  predicate PartnerDiffers(t: Table, r: Row) {
    exists k :: k in t && t[k].path == r.path && t[k].digest != r.digest
  }

  /** A row whose partner has another digest. */
  function Differing(t: Table): Row -> bool {
    (r: Row) => PartnerDiffers(t, r)
  }

  /** The map of a table is known by the row of each path. */
  lemma DigestAt(t: Table, id: RowId)
    requires UniquePaths(t) && id in t
    ensures t[id].path in DigestsOf(t) && DigestsOf(t)[t[id].path] == t[id].digest
  {
  }

  lemma SelectedAt(t: Table, wanted: Row -> bool, p: Path) returns (id: RowId)
    requires p in Selected(t, wanted)
    ensures id in t && wanted(t[id]) && t[id].path == p
  {
    id :| id in t && wanted(t[id]) && t[id].path == p;
  }

  lemma SelectedIn(t: Table, wanted: Row -> bool, id: RowId)
    requires id in t && wanted(t[id])
    ensures t[id].path in Selected(t, wanted)
  {
  }

  lemma UnmatchedRows(t1: Table, t2: Table)
    requires UniquePaths(t1) && UniquePaths(t2)
    ensures Selected(t1, Unmatched(t2)) == OnlyIn(DigestsOf(t1), DigestsOf(t2))
  {
    hide UniquePaths, DigestsOf, Selected, HasPath;
    forall p ensures p in Selected(t1, Unmatched(t2)) <==> p in OnlyIn(DigestsOf(t1), DigestsOf(t2)) {
      if HasPath(t1, p) && !HasPath(t2, p) {
        var id := RowOf(t1, p);
        SelectedIn(t1, Unmatched(t2), id);
      }
      if p in Selected(t1, Unmatched(t2)) {
        var id := SelectedAt(t1, Unmatched(t2), p);
        HasPathAt(t1, id);
      }
    }
  }

  lemma DifferingRows(t1: Table, t2: Table)
    requires UniquePaths(t1) && UniquePaths(t2)
    ensures Selected(t2, Differing(t1)) == Mismatched(DigestsOf(t1), DigestsOf(t2))
  {
    hide UniquePaths, DigestsOf, Selected, HasPath, PartnerDiffers;
    forall p ensures p in Selected(t2, Differing(t1)) <==> p in Mismatched(DigestsOf(t1), DigestsOf(t2)) {
      if p in Mismatched(DigestsOf(t1), DigestsOf(t2)) {
        var a := RowOf(t1, p);
        var b := RowOf(t2, p);
        DigestAt(t1, a);
        DigestAt(t2, b);
        DiffersBy(t1, t2[b], a);
        SelectedIn(t2, Differing(t1), b);
      }
      if p in Selected(t2, Differing(t1)) {
        var b := SelectedAt(t2, Differing(t1), p);
        var a := PartnerOf(t1, t2[b]);
        DigestAt(t1, a);
        DigestAt(t2, b);
      }
    }
  }

  lemma DiffersBy(t: Table, r: Row, k: RowId)
    requires k in t && t[k].path == r.path && t[k].digest != r.digest
    ensures PartnerDiffers(t, r)
  {
  }

  lemma PartnerOf(t: Table, r: Row) returns (k: RowId)
    requires PartnerDiffers(t, r)
    ensures k in t && t[k].path == r.path && t[k].digest != r.digest
  {
    k :| k in t && t[k].path == r.path && t[k].digest != r.digest;
  }

  /** The rows that pass --include and --ignore. */
  function Visible(cfg: Config, rows: seq<Path>): seq<Path> {
    if rows == [] then []
    else if FileScan.IsIgnored(cfg, rows[0]) == Some(false) then [rows[0]] + Visible(cfg, rows[1..])
    else Visible(cfg, rows[1..])
  }

  lemma {:induction false} VisibleAppend(cfg: Config, a: seq<Path>, b: seq<Path>)
    ensures Visible(cfg, a + b) == Visible(cfg, a) + Visible(cfg, b)
  {
    if a == [] {
      assert a + b == b;
    } else {
      VisibleAppend(cfg, a[1..], b);
      assert (a + b)[1..] == a[1..] + b;
    }
  }

  lemma {:induction false} VisibleMembers(cfg: Config, rows: seq<Path>, p: Path)
    ensures p in Visible(cfg, rows) <==> p in rows && FileScan.IsIgnored(cfg, p) == Some(false)
  {
    if rows != [] {
      VisibleMembers(cfg, rows[1..], p);
      assert p in rows <==> p == rows[0] || p in rows[1..];
    }
  }

  predicate Proper(s: Return) {
    s == SUCCESS || Skips(s)
  }

  /** The flag is never cleared, and raised only when signals arrive. */
  predicate Signalled(fate: Fate, before: bool, now: bool) {
    (before ==> now) && (now ==> before || fate.signals)
  }

  /** Nothing comes in the way. */
  ghost predicate Peaceful(fate: Fate, cfg: Config, interrupted: bool) {
    !fate.signals && !fate.faults && Compiles(cfg) && !interrupted
  }

  method Provide(s: Return, fate: Fate, interrupted0: bool) returns (r: Return, interrupted: bool)
    ensures Signalled(fate, interrupted0, interrupted)
    ensures r == Normalize(s, interrupted)
  {
    var signal: bool := *;
    interrupted := interrupted0 || (signal && fate.signals);
    r := Normalize(s, interrupted);
  }

  /** `db_report_category`: what is reported is always the start of the visible rows, and all of them
      on success. */
  method ReportCategory(cfg: Config, rows: seq<Path>, fate: Fate, interrupted0: bool)
    returns (status: Return, found: bool, shown: seq<Path>, interrupted: bool)
    ensures Signalled(fate, interrupted0, interrupted)
    ensures shown <= Visible(cfg, rows) && (found <==> shown != [])
    ensures status == SUCCESS ==> shown == Visible(cfg, rows)
    ensures Peaceful(fate, cfg, interrupted0) ==> status == SUCCESS
    ensures Proper(status) && (interrupted ==> status.halted)
  {
    interrupted := interrupted0;
    status, found, shown := SUCCESS, false, [];
    var prepared: bool := *;
    if !prepared && fate.faults {
      status := FAILURE;
    }
    if status == SUCCESS {
      var i := 0;
      assert rows[..0] == [];
      while i < |rows|
        invariant 0 <= i <= |rows|
        invariant shown == Visible(cfg, rows[..i]) && (found <==> shown != [])
        invariant status == SUCCESS && Signalled(fate, interrupted0, interrupted)
      {
        assert rows[..i + 1] == rows[..i] + [rows[i]];
        assert rows == rows[..i] + rows[i..];
        VisibleAppend(cfg, rows[..i], [rows[i]]);
        VisibleAppend(cfg, rows[..i], rows[i..]);
        var signal: bool := *;
        var broken: bool := *;
        interrupted := interrupted || (signal && fate.signals);
        if interrupted {
          break;
        }
        if broken && fate.faults {
          status := FAILURE;
          break;
        }
        var ignored := FileScan.IsIgnored(cfg, rows[i]);
        status, interrupted := Provide(if ignored == None then FAILURE else SUCCESS, fate, interrupted);
        if status != SUCCESS {
          break;
        }
        if ignored == Some(false) {
          found := true;
          shown := shown + [rows[i]];
        }
        i := i + 1;
      }
      assert rows[..i] + rows[i..] == rows;
      VisibleAppend(cfg, rows[..i], rows[i..]);
      assert i == |rows| ==> rows[..i] == rows;
    }
    status, interrupted := Provide(status, fate, interrupted);
  }

  // ----- The verdicts -----

  /** The categories that --compare-filter selects; all of them when it is not given. */
  datatype Scope = Scope(first: bool, second: bool, checksums: bool)

  const FULL := Scope(true, true, true)

  function ScopeOf(filter: Scope): Scope {
    if filter == Scope(false, false, false) then FULL else filter
  }

  datatype Report = Report(deleted: seq<Path>, added: seq<Path>, mismatched: seq<Path>,
    identicalFiles: bool, noFirst: bool, noSecond: bool, identicalChecksums: bool, equal: bool)

  /** The maps agree on every path that the filters let through. */
  ghost predicate Agree(cfg: Config, m1: Digests, m2: Digests) {
    forall p :: (p in m1 || p in m2) && FileScan.IsIgnored(cfg, p) == Some(false) ==>
        p in m1 && p in m2 && m1[p] == m2[p]
  }

  /** The visible rows of a query, when its category is in scope. */
  ghost predicate Shows(cfg: Config, wanted: bool, paths: set<Path>, shown: seq<Path>) {
    if !wanted then shown == [] else exists rows :: Lists(rows, paths) && shown == Visible(cfg, rows)
  }

  /** What a finished comparison prints. */
  ghost predicate Faithful(cfg: Config, filter: Scope, m1: Digests, m2: Digests, r: Report) {
    var scope := ScopeOf(filter);
    && Shows(cfg, scope.first, OnlyIn(m1, m2), r.deleted)
    && Shows(cfg, scope.second, OnlyIn(m2, m1), r.added)
    && Shows(cfg, scope.checksums, Mismatched(m1, m2), r.mismatched)
    && (r.equal <==> scope == FULL && r.deleted == r.added == r.mismatched == [])
    && (r.identicalFiles <==> r.equal)
    && (r.noFirst <==> scope != FULL && scope.first && r.deleted == [])
    && (r.noSecond <==> scope != FULL && scope.second && r.added == [])
    && (r.identicalChecksums <==> scope.checksums && r.mismatched == [])
  }

  predicate Silent(r: Report) {
    !r.identicalFiles && !r.noFirst && !r.noSecond && !r.identicalChecksums && !r.equal
  }

  /** One category, through `run`. The rows are those of its query, in order. */
  method Category(
      cfg: Config, wanted: bool, ghost paths: set<Path>, rows: seq<Path>, status0: Return, fate: Fate,
          interrupted0: bool)
    returns (status: Return, found: bool, shown: seq<Path>, interrupted: bool)
    requires Lists(rows, paths) && Proper(status0)
    ensures Signalled(fate, interrupted0, interrupted)
    ensures Proper(status)
    ensures status == SUCCESS ==> status0 == SUCCESS && Shows(cfg, wanted, paths, shown)
    ensures status0 == SUCCESS && Peaceful(fate, cfg, interrupted0) ==> status == SUCCESS
    ensures found <==> shown != []
  {
    status, found, shown, interrupted := status0, false, [], interrupted0;
    if wanted && !Skips(status) {
      var r;
      r, found, shown, interrupted := ReportCategory(cfg, rows, fate, interrupted);
      status := Merge(status, r, interrupted);
    }
  }

  method Detach(attached: bool, status0: Return, fate: Fate, interrupted0: bool)
    returns (status: Return, interrupted: bool)
    requires Proper(status0)
    ensures Proper(status)
    ensures Signalled(fate, interrupted0, interrupted)
    ensures status == SUCCESS ==> status0 == SUCCESS
    ensures status0 == SUCCESS && !fate.signals && !fate.faults && !interrupted0 ==> status == SUCCESS
  {
    status, interrupted := status0, interrupted0;
    if attached {
      var ok: bool := *;
      ok := ok || !fate.faults;
      var r;
      r, interrupted := Provide(if ok then SUCCESS else FAILURE, fate, interrupted);
      status := Merge(status, r, interrupted);
    }
  }

  /** Any of the steps before the queries: the checks of the two files and `db_attach`. */
  method Prepare(status0: Return, fate: Fate, interrupted0: bool) returns (status: Return, interrupted: bool)
    requires Proper(status0)
    ensures Proper(status)
    ensures Signalled(fate, interrupted0, interrupted)
    ensures status == SUCCESS ==> status0 == SUCCESS
    ensures status0 == SUCCESS && !fate.signals && !fate.faults && !interrupted0 ==> status == SUCCESS
  {
    status, interrupted := status0, interrupted0;
    if status == SUCCESS {
      var ok: bool := *;
      ok := ok || !fate.faults;
      status, interrupted := Provide(if ok then SUCCESS else FAILURE, fate, interrupted);
    }
  }

  /** `db_compare`: on success everything in scope was compared; after a failure or a noticed
      interruption there is no verdict. */
  method DbCompare(cfg: Config, filter: Scope, t1: Table, t2: Table, fate: Fate, interrupted0: bool)
    returns (status: Return, r: Report)
    requires UniquePaths(t1) && UniquePaths(t2)
    ensures status == SUCCESS ==> Faithful(cfg, filter, DigestsOf(t1), DigestsOf(t2), r)
    ensures status == SUCCESS || Silent(r) || Faithful(cfg, filter, DigestsOf(t1), DigestsOf(t2), r)
    ensures status.failure ==> Silent(r)
    ensures Peaceful(fate, cfg, interrupted0) ==> status == SUCCESS
  {
    ghost var m1, m2 := DigestsOf(t1), DigestsOf(t2);
    UnmatchedRows(t1, t2);
    UnmatchedRows(t2, t1);
    DifferingRows(t1, t2);
    var deletedRows := Select(t1, Unmatched(t2));
    var addedRows := Select(t2, Unmatched(t1));
    var mismatchedRows := Select(t2, Differing(t1));
    status, r := CompareRows(cfg, filter, m1, m2, deletedRows, addedRows, mismatchedRows, fate, interrupted0);
  }

  /** The comparison from the rows that the three queries return. */
  method CompareRows(cfg: Config, filter: Scope, ghost m1: Digests, ghost m2: Digests,
    deletedRows: seq<Path>, addedRows: seq<Path>, mismatchedRows: seq<Path>, fate: Fate, interrupted0: bool)
    returns (status: Return, r: Report)
    requires Lists(deletedRows, OnlyIn(m1, m2)) && Lists(addedRows, OnlyIn(m2, m1))
    requires Lists(mismatchedRows, Mismatched(m1, m2))
    ensures status == SUCCESS ==> Faithful(cfg, filter, m1, m2, r)
    ensures status == SUCCESS || Silent(r) || Faithful(cfg, filter, m1, m2, r)
    ensures status.failure ==> Silent(r)
    ensures Peaceful(fate, cfg, interrupted0) ==> status == SUCCESS
  {
    hide Lists, Visible;
    var interrupted := interrupted0;
    r := Report([], [], [], false, false, false, false, false);
    if interrupted {
      status, interrupted := Provide(SUCCESS, fate, interrupted);
      return;
    }
    status, interrupted := Prepare(SUCCESS, fate, interrupted);
    status, interrupted := Prepare(status, fate, interrupted);
    var attached1 := status == SUCCESS;
    status, interrupted := Prepare(status, fate, interrupted);
    var attached2 := status == SUCCESS;
    var scope := ScopeOf(filter);
    var firstFound, secondFound, mismatchFound, deleted, added, mismatched;
    status, firstFound, deleted, interrupted :=
        Category(cfg, scope.first, OnlyIn(m1, m2), deletedRows, status, fate, interrupted);
    status, secondFound, added, interrupted :=
        Category(cfg, scope.second, OnlyIn(m2, m1), addedRows, status, fate, interrupted);
    status, mismatchFound, mismatched, interrupted :=
      Category(cfg, scope.checksums, Mismatched(m1, m2), mismatchedRows, status, fate, interrupted);
    r := r.(deleted := deleted, added := added, mismatched := mismatched);
    status, interrupted := Detach(attached1, status, fate, interrupted);
    status, interrupted := Detach(attached2, status, fate, interrupted);
    if status == SUCCESS {
      var full := scope.first && scope.second && scope.checksums;
      var clean := !firstFound && !secondFound && !mismatchFound;
      if full && clean {
        r := r.(identicalFiles := true);
      } else if !full {
        r := r.(noFirst := scope.first && !firstFound, noSecond := scope.second && !secondFound);
      }
      r := r.(identicalChecksums := scope.checksums && !mismatchFound);
      r := r.(equal := full && clean);
    }
    status, interrupted := Provide(status, fate, interrupted);
  }

  // ----- What the verdicts mean -----

  /** The categories are disjoint and together are the paths on which the maps differ. */
  lemma CategoriesPartition(m1: Digests, m2: Digests, p: Path)
    ensures !(p in OnlyIn(m1, m2) && p in OnlyIn(m2, m1))
    ensures p in Mismatched(m1, m2) ==> p !in OnlyIn(m1, m2) && p !in OnlyIn(m2, m1)
    ensures p in OnlyIn(m1, m2) + OnlyIn(m2, m1) + Mismatched(m1, m2) <==>
            (p in m1 || p in m2) && !(p in m1 && p in m2 && m1[p] == m2[p])
  {
  }

  lemma ShownNothing(cfg: Config, paths: set<Path>, shown: seq<Path>)
    requires Shows(cfg, true, paths, shown)
    ensures shown == [] <==> forall p :: p in paths ==> FileScan.IsIgnored(cfg, p) != Some(false)
  {
    var rows :| Lists(rows, paths) && shown == Visible(cfg, rows);
    forall p ensures p in shown <==> p in paths && FileScan.IsIgnored(cfg, p) == Some(false) {
      VisibleMembers(cfg, rows, p);
    }
    if shown != [] {
      assert shown[0] in shown;
    }
  }

  /** With all categories enabled "absolutely equal" is printed exactly when the maps agree on the
      filtered scope. */
  lemma EqualMeansAgreement(cfg: Config, filter: Scope, m1: Digests, m2: Digests, r: Report)
    requires Faithful(cfg, filter, m1, m2, r) && ScopeOf(filter) == FULL
    ensures r.equal <==> Agree(cfg, m1, m2)
  {
    ShownNothing(cfg, OnlyIn(m1, m2), r.deleted);
    ShownNothing(cfg, OnlyIn(m2, m1), r.added);
    ShownNothing(cfg, Mismatched(m1, m2), r.mismatched);
    forall p | p in m1 || p in m2
      ensures p in OnlyIn(m1, m2) + OnlyIn(m2, m1) + Mismatched(m1, m2) <==> !(p in m1 && p in m2 && m1[p] == m2[p])
    {
      CategoriesPartition(m1, m2, p);
    }
  }

  /** What is listed, in terms of the two maps: without a filter everything that differs and is visible, with
      one the categories it names. */
  lemma ListedExactly(cfg: Config, filter: Scope, m1: Digests, m2: Digests, r: Report, p: Path)
    requires Faithful(cfg, filter, m1, m2, r)
    ensures
      var none := !filter.first && !filter.second && !filter.checksums;
      var visible := FileScan.IsIgnored(cfg, p) == Some(false);
      && (p in r.deleted <==> (none || filter.first) && visible && p in m1 && p !in m2)
      && (p in r.added <==> (none || filter.second) && visible && p !in m1 && p in m2)
      && (p in r.mismatched <==> (none || filter.checksums) && visible && p in m1 && p in m2 && m1[p] != m2[p])
  {
    var scope := ScopeOf(filter);
    ListedIn(cfg, scope.first, OnlyIn(m1, m2), r.deleted, p);
    ListedIn(cfg, scope.second, OnlyIn(m2, m1), r.added, p);
    ListedIn(cfg, scope.checksums, Mismatched(m1, m2), r.mismatched, p);
  }

  lemma ListedIn(cfg: Config, wanted: bool, paths: set<Path>, shown: seq<Path>, p: Path)
    requires Shows(cfg, wanted, paths, shown)
    ensures p in shown <==> wanted && p in paths && FileScan.IsIgnored(cfg, p) == Some(false)
  {
    if wanted {
      var rows :| Lists(rows, paths) && shown == Visible(cfg, rows);
      VisibleMembers(cfg, rows, p);
    }
  }

  function Swapped(r: Report): Report {
    Report(r.added, r.deleted, r.mismatched, r.identicalFiles, r.noSecond, r.noFirst, r.identicalChecksums, r.equal)
  }

  /** Comparing the other way round swaps the first and second source and changes nothing else. */
  lemma SwapSwaps(cfg: Config, filter: Scope, m1: Digests, m2: Digests, r1: Report, r2: Report)
    requires Faithful(cfg, filter, m1, m2, r1)
    requires Faithful(cfg, Scope(filter.second, filter.first, filter.checksums), m2, m1, r2)
    ensures r2 == Swapped(r1)
  {
    var scope := ScopeOf(filter);
    assert Mismatched(m1, m2) == Mismatched(m2, m1);
    ShownOnce(cfg, scope.first, OnlyIn(m1, m2), r1.deleted, r2.added);
    ShownOnce(cfg, scope.second, OnlyIn(m2, m1), r1.added, r2.deleted);
    ShownOnce(cfg, scope.checksums, Mismatched(m1, m2), r1.mismatched, r2.mismatched);
  }

  lemma ShownOnce(cfg: Config, wanted: bool, paths: set<Path>, a: seq<Path>, b: seq<Path>)
    requires Shows(cfg, wanted, paths, a) && Shows(cfg, wanted, paths, b)
    ensures a == b
  {
    if wanted {
      var x :| Lists(x, paths) && a == Visible(cfg, x);
      var y :| Lists(y, paths) && b == Visible(cfg, y);
      ListingUnique(x, y, paths);
    }
  }

  // ----- Databases of true rows -----

  predicate Complete(t: Table) {
    forall id :: id in t ==> t[id].offset == None
  }

  /** Rows for the same path describe the same content. */
  ghost predicate SameFiles(w: World, t1: Table, t2: Table) {
    && (forall p :: HasPath(t1, p) <==> HasPath(t2, p))
    && forall a, b :: a in t1 && b in t2 && t1[a].path == t2[b].path ==>
        && (t1[a].stat.size == 0 <==> t2[b].stat.size == 0)
        && w.content(t1[a].path, KeyOf(t1[a].stat)) == w.content(t2[b].path, KeyOf(t2[b].stat))
  }

  lemma RowOf(t: Table, p: Path) returns (id: RowId)
    requires HasPath(t, p)
    ensures id in t && t[id].path == p
  {
    id :| id in t && t[id].path == p;
  }

  lemma SameDigest(w: World, t1: Table, t2: Table, p: Path)
    requires UniquePaths(t1) && UniquePaths(t2) && w.exempt == {}
    requires TableSound(w, t1) && TableSound(w, t2) && Complete(t1) && Complete(t2) && SameFiles(w, t1, t2)
    requires HasPath(t1, p) || HasPath(t2, p)
    ensures var m1, m2 := DigestsOf(t1), DigestsOf(t2);
      p in m1 && p in m2 && m1[p] == m2[p]
  {
    hide DigestOf;
    var a := RowOf(t1, p);
    var b := RowOf(t2, p);
    SoundRow(w, t1, a);
    SoundRow(w, t2, b);
  }

  lemma TrueRowsAgree(cfg: Config, w: World, t1: Table, t2: Table)
    requires UniquePaths(t1) && UniquePaths(t2) && w.exempt == {}
    requires TableSound(w, t1) && TableSound(w, t2) && Complete(t1) && Complete(t2) && SameFiles(w, t1, t2)
    ensures Agree(cfg, DigestsOf(t1), DigestsOf(t2))
  {
    hide TableSound, Complete, SameFiles, UniquePaths, HasPath;
    var m1, m2 := DigestsOf(t1), DigestsOf(t2);
    forall p | p in m1 || p in m2 ensures p in m1 && p in m2 && m1[p] == m2[p] {
      SameDigest(w, t1, t2, p);
    }
  }

  /** Two finished databases whose rows are true of the same files are reported equal, whatever row
      numbers and other metadata they hold and whatever is filtered out. */
  lemma TrueRowsAreEqual(cfg: Config, w: World, t1: Table, t2: Table, r: Report)
    requires UniquePaths(t1) && UniquePaths(t2) && w.exempt == {}
    requires TableSound(w, t1) && TableSound(w, t2) && Complete(t1) && Complete(t2) && SameFiles(w, t1, t2)
    requires Faithful(cfg, FULL, DigestsOf(t1), DigestsOf(t2), r)
    ensures r.equal
  {
    hide TableSound, Complete, SameFiles, UniquePaths, Faithful, Agree;
    TrueRowsAgree(cfg, w, t1, t2);
    EqualMeansAgreement(cfg, FULL, DigestsOf(t1), DigestsOf(t2), r);
  }
}
