/** The order of option entries in a help listing: the comparison functions of argp-help.c, in the C
    locale. The reference is a sort key: a sequence of integers for every entry, compared
    lexicographically. */
module HelpOrder {
  import opened Common
  import opened CString
  import opened Lexicographic

  // ----- Groups -----

  /** Order by group: 0, 1, 2, ..., n, -m, ..., -2, -1. */
  function GroupCmp(a: int, b: int): int {
    if (a < 0 && b < 0) || (a >= 0 && b >= 0) then a - b else b - a
  }

  function GroupKey(g: int): (k: seq<int>)
    ensures |k| == 2
  {
    [if g < 0 then 1 else 0, g]
  }

  /** The documented order: the groups from 0 upwards, then the negative ones, -1 last. */
  predicate GroupBefore(a: int, b: int) {
    0 <= a < b || b < 0 <= a || a < b < 0
  }

  lemma GroupCmpDocumented(a: int, b: int)
    ensures GroupCmp(a, b) < 0 <==> GroupBefore(a, b)
    ensures GroupCmp(a, b) > 0 <==> GroupBefore(b, a)
  {
  }

  lemma GroupCmpByKey(a: int, b: int)
    ensures Sign(GroupCmp(a, b)) == Lex(GroupKey(a), GroupKey(b))
  {
    assert GroupKey(a)[1..] == [a] && GroupKey(b)[1..] == [b];
    LexField(a, b);
  }

  predicate IsInt(x: int) {
    -0x8000_0000 <= x <= 0x7fff_ffff
  }

  /** Two `int` groups are compared within the range of `int` exactly when they have the same sign
      or are less than 2^31 apart. */
  lemma GroupCmpFits(a: int, b: int)
    requires IsInt(a) && IsInt(b)
    ensures IsInt(GroupCmp(a, b)) <==> (a < 0) == (b < 0) || -0x8000_0000 <= b - a <= 0x7fff_ffff
  {
  }

  // ----- Clusters -----

  /** `parent` is the position of the parent cluster in the forest, or -1 at the base level. */
  datatype Cluster = Cluster(group: int, index: int, parent: int, depth: nat)

  type Forest = seq<Cluster>

  /** A cluster is created after its parent, one level deeper. */
  predicate Grown(f: Forest) {
    forall c :: 0 <= c < |f| ==>
      && -1 <= f[c].parent < c
      && f[c].depth == if f[c].parent == -1 then 0 else f[f[c].parent].depth + 1
  }

  function ClusterKey(c: Cluster): (k: seq<int>)
    ensures |k| == 4
  {
    [1] + GroupKey(c.group) + [-c.index]
  }

  /** The keys from the root down to the cluster. */
  function Lineage(f: Forest, c: nat): (k: seq<int>)
    requires Grown(f) && c < |f|
    ensures |k| == 4 * (f[c].depth + 1)
    decreases c
  {
    (if f[c].parent == -1 then [] else Lineage(f, f[c].parent)) + ClusterKey(f[c])
  }

  function SiblingCmp(a: Cluster, b: Cluster): int {
    if GroupCmp(a.group, b.group) != 0 then GroupCmp(a.group, b.group) else b.index - a.index
  }

  lemma SiblingCmpByKey(a: Cluster, b: Cluster)
    ensures Sign(SiblingCmp(a, b)) == Lex(ClusterKey(a), ClusterKey(b))
  {
    GroupCmpByKey(a.group, b.group);
    LexAppend(GroupKey(a.group), GroupKey(b.group), [-a.index], [-b.index]);
    assert ClusterKey(a)[1..] == GroupKey(a.group) + [-a.index];
    assert ClusterKey(b)[1..] == GroupKey(b.group) + [-b.index];
  }

  /** `hol_cousin_cluster_cmp`. */
  function CousinCmp(f: Forest, a: nat, b: nat): int
    requires Grown(f) && a < |f| && b < |f| && f[a].depth == f[b].depth
    decreases a
  {
    if f[a].parent == f[b].parent then SiblingCmp(f[a], f[b])
    else
      var cmp := CousinCmp(f, f[a].parent, f[b].parent);
      if cmp != 0 then cmp else SiblingCmp(f[a], f[b])
  }

  lemma {:induction false} CousinCmpByKey(f: Forest, a: nat, b: nat)
    requires Grown(f) && a < |f| && b < |f| && f[a].depth == f[b].depth
    ensures Sign(CousinCmp(f, a, b)) == Lex(Lineage(f, a), Lineage(f, b))
    decreases a
  {
    SiblingCmpByKey(f[a], f[b]);
    if f[a].parent == f[b].parent {
      var up := if f[a].parent == -1 then [] else Lineage(f, f[a].parent);
      LexEqual(up, up);
      LexAppend(up, up, ClusterKey(f[a]), ClusterKey(f[b]));
    } else {
      CousinCmpByKey(f, f[a].parent, f[b].parent);
      LexAppend(Lineage(f, f[a].parent), Lineage(f, f[b].parent), ClusterKey(f[a]), ClusterKey(f[b]));
    }
  }

  /** A cluster comes before everything in its sub-clusters. */
  function ClosedLineage(f: Forest, c: nat): seq<int>
    requires Grown(f) && c < |f|
  {
    Lineage(f, c) + [0]
  }

  lemma {:induction false} DeeperAfter(u: seq<int>, x: seq<int>, v: seq<int>)
    requires |u| == |v| && x != [] && x[0] == 1
    ensures Lex((u + x) + [0], v + [0]) == if Lex(u, v) != 0 then Lex(u, v) else 1
    ensures Lex(v + [0], (u + x) + [0]) == if Lex(u, v) != 0 then -Lex(u, v) else -1
  {
    assert (u + x) + [0] == u + (x + [0]);
    LexAppend(u, v, x + [0], [0]);
    LexSwap((u + x) + [0], v + [0]);
  }

  lemma LineageStep(f: Forest, c: nat)
    requires Grown(f) && c < |f| && f[c].parent != -1
    ensures Lineage(f, c) == Lineage(f, f[c].parent) + ClusterKey(f[c])
    ensures ClusterKey(f[c])[0] == 1
  {
  }

  /** The ancestor at the given depth. */
  function AncestorAt(f: Forest, c: nat, depth: nat): (a: nat)
    requires Grown(f) && c < |f| && depth <= f[c].depth
    ensures a < |f| && f[a].depth == depth
    decreases c
  {
    if f[c].depth == depth then c else AncestorAt(f, f[c].parent, depth)
  }

  lemma Associate(a: seq<int>, b: seq<int>, c: seq<int>)
    ensures (a + b) + c == a + (b + c)
  {
  }

  lemma {:induction false} BelowAncestor(f: Forest, c: nat, depth: nat) returns (below: seq<int>)
    requires Grown(f) && c < |f| && depth < f[c].depth
    ensures Lineage(f, c) == Lineage(f, AncestorAt(f, c, depth)) + below && below != [] && below[0] == 1
    decreases c
  {
    hide Lineage, ClusterKey;
    var up := f[c].parent;
    assert AncestorAt(f, c, depth) == AncestorAt(f, up, depth);
    LineageStep(f, c);
    below := ClusterKey(f[c]);
    if f[up].depth > depth {
      var above := BelowAncestor(f, up, depth);
      Associate(Lineage(f, AncestorAt(f, up, depth)), above, below);
      below := above + below;
    }
  }

  /** Climb to the ancestor at the given depth. */
  method Ancestor(f: Forest, c: nat, depth: nat) returns (a: nat)
    requires Grown(f) && c < |f| && depth < f[c].depth
    ensures a == AncestorAt(f, c, depth)
  {
    a := f[c].parent;
    while f[a].depth > depth
      invariant a < |f| && depth <= f[a].depth && AncestorAt(f, a, depth) == AncestorAt(f, c, depth)
      decreases a
    {
      a := f[a].parent;
    }
  }

  /** `hol_cluster_cmp`: lexicographic order of the lineages, a prefix first. */
  method ClusterCmp(f: Forest, c1: nat, c2: nat) returns (cmp: int)
    requires Grown(f) && c1 < |f| && c2 < |f|
    ensures Sign(cmp) == Lex(ClosedLineage(f, c1), ClosedLineage(f, c2))
  {
    ghost var below;
    if f[c1].depth > f[c2].depth {
      var a := Ancestor(f, c1, f[c2].depth);
      below := BelowAncestor(f, c1, f[c2].depth);
      CousinCmpByKey(f, a, c2);
      DeeperAfter(Lineage(f, a), below, Lineage(f, c2));
      cmp := CousinCmp(f, a, c2);
      if cmp != 0 {
        return;
      }
      return 1;
    } else if f[c1].depth < f[c2].depth {
      var a := Ancestor(f, c2, f[c1].depth);
      below := BelowAncestor(f, c2, f[c1].depth);
      CousinCmpByKey(f, c1, a);
      DeeperAfter(Lineage(f, a), below, Lineage(f, c1));
      LexSwap(Lineage(f, a), Lineage(f, c1));
      cmp := CousinCmp(f, c1, a);
      if cmp != 0 {
        return;
      }
      return -1;
    } else {
      CousinCmpByKey(f, c1, c2);
      LexAppend(Lineage(f, c1), Lineage(f, c2), [0], [0]);
      LexEqual([0], [0]);
      return CousinCmp(f, c1, c2);
    }
  }

  function BaseOf(f: Forest, c: nat): (b: nat)
    requires Grown(f) && c < |f|
    ensures b < |f| && f[b].parent == -1
    decreases c
  {
    if f[c].parent == -1 then c else BaseOf(f, f[c].parent)
  }

  /** `hol_cluster_base`. */
  method ClusterBase(f: Forest, c: nat) returns (b: nat)
    requires Grown(f) && c < |f|
    ensures b == BaseOf(f, c)
  {
    b := c;
    while f[b].parent != -1
      invariant b < |f| && BaseOf(f, b) == BaseOf(f, c)
      decreases b
    {
      b := f[b].parent;
    }
  }

  // ----- Options and entries -----

  predicate IsAlnum(c: Byte) {
    48 <= c <= 57 || 65 <= c <= 90 || 97 <= c <= 122
  }

  datatype Opt = Opt(name: Option<Text>, key: int, alias: bool, doc: bool, hidden: bool)

  predicate IsShort(o: Opt) {
    !o.doc && 32 <= o.key <= 126
  }

  /** `shorts` is what follows the entry's position in the table of short options. */
  datatype Entry = Entry(opts: seq<Opt>, shorts: Text, group: int, cluster: Option<nat>)

  predicate WellFormed(f: Forest, e: Entry) {
    Grown(f) && e.opts != [] && (e.cluster.Some? ==> e.cluster.value < |f|)
  }

  function FirstShortOf(opts: seq<Opt>, shorts: Text): (k: int)
    ensures k == 0 || 32 <= k <= 126
    decreases |opts|
  {
    if opts == [] then 0
    else if IsShort(opts[0]) && shorts != [] && shorts[0] == opts[0].key then
      if !opts[0].hidden then opts[0].key else FirstShortOf(opts[1..], shorts[1..])
    else FirstShortOf(opts[1..], shorts)
  }

  /** `hol_entry_first_short`: the first visible short option that was not shadowed, or 0. */
  method FirstShort(e: Entry) returns (k: int)
    ensures k == FirstShortOf(e.opts, e.shorts)
  {
    var i, so := 0, 0;
    k := 0;
    assert e.opts[0..] == e.opts && e.shorts[0..] == e.shorts;
    while i < |e.opts| && k == 0
      invariant 0 <= i <= |e.opts| && 0 <= so <= |e.shorts|
      invariant FirstShortOf(e.opts, e.shorts) == if k != 0 then k else FirstShortOf(e.opts[i..], e.shorts[so..])
    {
      var o := e.opts[i];
      assert e.opts[i..][1..] == e.opts[i + 1..];
      if IsShort(o) && so < |e.shorts| && e.shorts[so] == o.key {
        assert e.shorts[so..][1..] == e.shorts[so + 1..];
        if !o.hidden {
          k := o.key;
        }
        so := so + 1;
      }
      i := i + 1;
    }
  }

  function FirstLongOf(opts: seq<Opt>): Option<Text> {
    if opts == [] then None
    else if opts[0].name.Some? && !opts[0].hidden then opts[0].name
    else FirstLongOf(opts[1..])
  }

  /** `hol_entry_first_long`. */
  method FirstLong(e: Entry) returns (name: Option<Text>)
    ensures name == FirstLongOf(e.opts)
  {
    assert e.opts[0..] == e.opts;
    for i := 0 to |e.opts|
      invariant FirstLongOf(e.opts) == FirstLongOf(e.opts[i..])
    {
      assert e.opts[i..][1..] == e.opts[i + 1..];
      if e.opts[i].name.Some? && !e.opts[i].hidden {
        return e.opts[i].name;
      }
    }
    return None;
  }

  function SkipSpaces(s: Text): (t: Text)
    ensures t == [] || !IsSpace(t[0])
  {
    if s != [] && IsSpace(s[0]) then SkipSpaces(s[1..]) else s
  }

  function SkipToAlnum(s: Text): (t: Text)
    ensures t == [] || IsAlnum(t[0])
  {
    if s != [] && !IsAlnum(s[0]) then SkipToAlnum(s[1..]) else s
  }

  predicate LooksLikeNonOption(s: Text) {
    var t := SkipSpaces(s);
    t == [] || t[0] != 45
  }

  /** `canon_doc_option`: the part of a documentation entry used for sorting. */
  method CanonDocOption(name: Text) returns (nonOption: bool, tail: Text)
    ensures nonOption == LooksLikeNonOption(name)
    ensures tail == SkipToAlnum(SkipSpaces(name))
  {
    var i := 0;
    assert name[0..] == name;
    while i < |name| && IsSpace(name[i])
      invariant 0 <= i <= |name| && SkipSpaces(name) == SkipSpaces(name[i..])
    {
      assert name[i..][1..] == name[i + 1..];
      i := i + 1;
    }
    nonOption := i == |name| || name[i] != 45;
    while i < |name| && !IsAlnum(name[i])
      invariant 0 <= i <= |name| && SkipToAlnum(SkipSpaces(name)) == SkipToAlnum(name[i..])
    {
      assert name[i..][1..] == name[i + 1..];
      i := i + 1;
    }
    tail := name[i..];
  }

  // ----- The sort key of an entry -----

  /** The group that places the entry: that of its base cluster, when it is in a cluster. */
  function PlaceGroup(f: Forest, e: Entry): int
    requires WellFormed(f, e)
  {
    match e.cluster
    case None => e.group
    case Some(c) => f[BaseOf(f, c)].group
  }

  predicate IsDoc(e: Entry)
    requires e.opts != []
  {
    e.opts[0].doc && FirstLongOf(e.opts).Some? && LooksLikeNonOption(FirstLongOf(e.opts).value)
  }

  /** The long name used for sorting: the tail of a documentation entry. */
  function SortName(e: Entry): Option<Text>
    requires e.opts != []
  {
    var long := FirstLongOf(e.opts);
    if e.opts[0].doc && long.Some? then Some(SkipToAlnum(SkipSpaces(long.value))) else long
  }

  function FirstChar(e: Entry): int
    requires e.opts != []
  {
    var short := FirstShortOf(e.opts, e.shorts);
    if short != 0 then short
    else match SortName(e)
         case None => 0
         case Some(s) => if s == [] then 0 else s[0]
  }

  function Bit(b: bool): int {
    if b then 1 else 0
  }

  function Flag(b: bool): seq<int> {
    [Bit(b)]
  }

  lemma FlagCmp(a: bool, b: bool)
    ensures Lex(Flag(a), Flag(b)) == Sign(Bit(a) - Bit(b))
  {
    LexField(Bit(a), Bit(b));
  }

  /** The fields that place an entry, most significant first. An entry without a short option is
      placed by its long name, without regard to case. */
  function SortKey(f: Forest, e: Entry): (k: seq<seq<int>>)
    requires WellFormed(f, e)
    ensures |k| == 10
  {
    var plain := FirstShortOf(e.opts, e.shorts) == 0;
    var name := SortName(e);
    [ GroupKey(PlaceGroup(f, e)),
      Flag(e.cluster.Some?),
      if e.cluster.Some? then ClosedLineage(f, e.cluster.value) else [],
      GroupKey(e.group),
      Flag(IsDoc(e)),
      [ToLower(FirstChar(e))],
      [-FirstChar(e)],
      Flag(!plain),
      Flag(plain && name.Some?),
      if plain && name.Some? then Folded(name.value) else [] ]
  }

  /** Compare field by field; the first difference decides. */
  function KeyCmp(a: seq<seq<int>>, b: seq<seq<int>>): (r: int)
    requires |a| == |b|
    ensures r == -1 || r == 0 || r == 1
  {
    if a == [] then 0
    else if Lex(a[0], b[0]) != 0 then Lex(a[0], b[0])
    else KeyCmp(a[1..], b[1..])
  }

  lemma {:induction false} FirstDifference(a: seq<seq<int>>, b: seq<seq<int>>, k: nat)
    requires |a| == |b| && k <= |a|
    requires forall i :: 0 <= i < k ==> Lex(a[i], b[i]) == 0
    requires k < |a| ==> Lex(a[k], b[k]) != 0
    ensures KeyCmp(a, b) == if k < |a| then Lex(a[k], b[k]) else 0
  {
    if k > 0 {
      assert forall i :: 0 <= i < |a| - 1 ==> a[1..][i] == a[i + 1] && b[1..][i] == b[i + 1];
      FirstDifference(a[1..], b[1..], k - 1);
    }
  }

  lemma {:induction false} KeyCmpSwap(a: seq<seq<int>>, b: seq<seq<int>>)
    requires |a| == |b|
    ensures KeyCmp(b, a) == -KeyCmp(a, b)
  {
    if a != [] {
      LexSwap(a[0], b[0]);
      KeyCmpSwap(a[1..], b[1..]);
    }
  }

  lemma {:induction false} KeyCmpEqual(a: seq<seq<int>>, b: seq<seq<int>>)
    requires |a| == |b|
    ensures KeyCmp(a, b) == 0 <==> a == b
  {
    if a != [] {
      LexEqual(a[0], b[0]);
      KeyCmpEqual(a[1..], b[1..]);
      assert a == [a[0]] + a[1..] && b == [b[0]] + b[1..];
    }
  }

  lemma {:induction false} KeyCmpTransitive(a: seq<seq<int>>, b: seq<seq<int>>, c: seq<seq<int>>)
    requires |a| == |b| == |c|
    requires KeyCmp(a, b) <= 0 && KeyCmp(b, c) <= 0
    ensures KeyCmp(a, c) <= 0
    ensures KeyCmp(a, c) == 0 <==> KeyCmp(a, b) == 0 && KeyCmp(b, c) == 0
  {
    if a != [] {
      LexTransitive(a[0], b[0], c[0]);
      if Lex(a[0], c[0]) == 0 {
        KeyCmpTransitive(a[1..], b[1..], c[1..]);
      }
    }
  }

  lemma {:induction false} StrCaseCmpByKey(a: Text, b: Text)
    requires IsCString(a) && IsCString(b)
    ensures Sign(StrCaseCmp(a, b)) == Lex(Folded(a), Folded(b))
    decreases |a|
  {
    if a != [] && b != [] && ToLower(a[0]) == ToLower(b[0]) {
      StrCaseCmpByKey(a[1..], b[1..]);
      assert Folded(a)[1..] == Folded(a[1..]) && Folded(b)[1..] == Folded(b[1..]);
    }
  }

  // ----- Comparing entries -----

  ghost predicate AgreeUpTo(a: seq<seq<int>>, b: seq<seq<int>>, k: nat)
    requires |a| == |b|
  {
    k <= |a| && forall i :: 0 <= i < k ==> Lex(a[i], b[i]) == 0
  }

  /** The names are C strings. */
  predicate NamesEnd(e: Entry) {
    forall i :: 0 <= i < |e.opts| ==> e.opts[i].name.Some? ==> IsCString(e.opts[i].name.value)
  }

  lemma {:induction false} SortNameEnds(e: Entry)
    requires e.opts != [] && NamesEnd(e)
    ensures SortName(e).Some? ==> IsCString(SortName(e).value)
  {
    FirstLongEnds(e.opts);
    if FirstLongOf(e.opts).Some? {
      TailEnds(FirstLongOf(e.opts).value);
    }
  }

  lemma {:induction false} FirstLongEnds(opts: seq<Opt>)
    requires forall i :: 0 <= i < |opts| ==> opts[i].name.Some? ==> IsCString(opts[i].name.value)
    ensures FirstLongOf(opts).Some? ==> IsCString(FirstLongOf(opts).value)
  {
    if opts != [] {
      FirstLongEnds(opts[1..]);
    }
  }

  lemma {:induction false} TailEnds(s: Text)
    requires IsCString(s)
    ensures IsCString(SkipSpaces(s)) && IsCString(SkipToAlnum(s))
    ensures IsCString(SkipToAlnum(SkipSpaces(s)))
    decreases |s|
  {
    if s != [] {
      TailEnds(s[1..]);
    }
  }

  /** The first six criteria: group, cluster, group in the cluster, documentation. */
  method PlaceCmp(f: Forest, e1: Entry, e2: Entry) returns (cmp: int)
    requires WellFormed(f, e1) && WellFormed(f, e2)
    ensures cmp != 0 ==> Sign(cmp) == KeyCmp(SortKey(f, e1), SortKey(f, e2))
    ensures cmp == 0 ==> AgreeUpTo(SortKey(f, e1), SortKey(f, e2), 4)
  {
    hide Lex, KeyCmp, GroupCmp, GroupKey, ClosedLineage, Lineage, BaseOf, Grown, FirstShortOf, SortName, IsDoc,
         NamesEnd, ToLower, Folded, StrCaseCmp;
    ghost var k1, k2 := SortKey(f, e1), SortKey(f, e2);
    var group1, group2 := e1.group, e2.group;
    if e1.cluster.Some? {
      var base := ClusterBase(f, e1.cluster.value);
      group1 := f[base].group;
    }
    if e2.cluster.Some? {
      var base := ClusterBase(f, e2.cluster.value);
      group2 := f[base].group;
    }
    cmp := GroupCmp(group1, group2);
    GroupCmpByKey(group1, group2);
    if cmp != 0 {
      FirstDifference(k1, k2, 0);
      return;
    }
    cmp := Bit(e1.cluster.Some?) - Bit(e2.cluster.Some?);
    FlagCmp(e1.cluster.Some?, e2.cluster.Some?);
    if cmp != 0 {
      FirstDifference(k1, k2, 1);
      return;
    }
    if e1.cluster.None? {
      LexEqual([], []);
    } else {
      cmp := ClusterCmp(f, e1.cluster.value, e2.cluster.value);
      if cmp != 0 {
        FirstDifference(k1, k2, 2);
        return;
      }
    }
    cmp := GroupCmp(e1.group, e2.group);
    GroupCmpByKey(e1.group, e2.group);
    if cmp != 0 {
      FirstDifference(k1, k2, 3);
    }
  }

  // ----- The documented order -----

  /** `a` is a cluster that `c` lies in, at any depth. */
  predicate IsAbove(f: Forest, a: nat, c: nat)
    requires Grown(f) && a < |f| && c < |f|
    decreases c
  {
    f[c].parent != -1 && (f[c].parent == a || IsAbove(f, a, f[c].parent))
  }

  /** Sub-clusters of one cluster, or clusters at the base: by group, then the last one created first. */
  predicate SiblingBefore(f: Forest, a: nat, b: nat)
    requires Grown(f) && a < |f| && b < |f|
  {
    && f[a].parent == f[b].parent
    && (GroupBefore(f[a].group, f[b].group) || (f[a].group == f[b].group && f[a].index > f[b].index))
  }

  predicate ClusterBefore(f: Forest, a: nat, b: nat)
    requires Grown(f) && a < |f| && b < |f|
  {
    IsAbove(f, a, b) || SiblingBefore(f, a, b)
  }

  predicate LowerBefore(a: int, b: int) {
    var lower := (c: int) => if 65 <= c <= 90 then c + 32 else c;
    lower(a) < lower(b) || (lower(a) == lower(b) && a > b)
  }

  /** Why one entry is listed before another: the group it belongs to; no cluster before a cluster of the
      same group; a cluster before what lies in it, and siblings in their order; and within one cluster, or
      outside clusters, the group, options before documentation, and the first character without regard
      to case, a small letter before the capital. */
  predicate MustPrecede(f: Forest, e1: Entry, e2: Entry)
    requires WellFormed(f, e1) && WellFormed(f, e2)
  {
    match (e1.cluster, e2.cluster)
    case (None, Some(b)) => e1.group == f[BaseOf(f, b)].group || GroupBefore(e1.group, f[BaseOf(f, b)].group)
    case (Some(a), None) => GroupBefore(f[BaseOf(f, a)].group, e2.group)
    case (Some(a), Some(b)) => ClusterBefore(f, a, b) || (a == b && InnerBefore(e1, e2))
    case (None, None) => InnerBefore(e1, e2)
  }

  predicate InnerBefore(e1: Entry, e2: Entry)
    requires e1.opts != [] && e2.opts != []
  {
    || GroupBefore(e1.group, e2.group)
    || (e1.group == e2.group && !IsDoc(e1) && IsDoc(e2))
    || (e1.group == e2.group && IsDoc(e1) == IsDoc(e2) && LowerBefore(FirstChar(e1), FirstChar(e2)))
  }

  lemma {:induction false} AboveFacts(f: Forest, a: nat, c: nat)
    requires Grown(f) && a < |f| && c < |f| && IsAbove(f, a, c)
    ensures f[a].depth < f[c].depth && AncestorAt(f, c, f[a].depth) == a && BaseOf(f, c) == BaseOf(f, a)
    decreases c
  {
    if f[c].parent != a {
      AboveFacts(f, a, f[c].parent);
    }
  }

  lemma AboveFirst(f: Forest, a: nat, c: nat)
    requires Grown(f) && a < |f| && c < |f| && IsAbove(f, a, c)
    ensures Lex(ClosedLineage(f, a), ClosedLineage(f, c)) == -1 && BaseOf(f, c) == BaseOf(f, a)
  {
    hide Lineage;
    AboveFacts(f, a, c);
    var below := BelowAncestor(f, c, f[a].depth);
    LexEqual(Lineage(f, a), Lineage(f, a));
    DeeperAfter(Lineage(f, a), below, Lineage(f, a));
  }

  lemma SiblingFirst(f: Forest, a: nat, b: nat)
    requires Grown(f) && a < |f| && b < |f| && SiblingBefore(f, a, b)
    ensures Lex(ClosedLineage(f, a), ClosedLineage(f, b)) == -1
    ensures f[a].parent != -1 ==> BaseOf(f, a) == BaseOf(f, b)
    ensures f[a].parent == -1 ==> BaseOf(f, a) == a && BaseOf(f, b) == b
  {
    GroupCmpDocumented(f[a].group, f[b].group);
    SiblingCmpByKey(f[a], f[b]);
    var up := if f[a].parent == -1 then [] else Lineage(f, f[a].parent);
    hide ClusterKey, GroupCmp;
    LexEqual(up, up);
    LexAppend(up, up, ClusterKey(f[a]), ClusterKey(f[b]));
    LexAppend(Lineage(f, a), Lineage(f, b), [0], [0]);
  }

  lemma GroupFirst(a: int, b: int)
    ensures GroupBefore(a, b) ==> Lex(GroupKey(a), GroupKey(b)) == -1
    ensures a == b ==> Lex(GroupKey(a), GroupKey(b)) == 0
  {
    GroupCmpDocumented(a, b);
    GroupCmpByKey(a, b);
  }

  lemma InnerFirst(f: Forest, e1: Entry, e2: Entry)
    requires WellFormed(f, e1) && WellFormed(f, e2) && e1.cluster == e2.cluster && InnerBefore(e1, e2)
    ensures Order(f, e1, e2) == -1
  {
    hide Lex, KeyCmp, GroupKey, ClosedLineage, BaseOf, FirstShortOf, SortName, IsDoc, Folded, FirstChar;
    var k1, k2 := SortKey(f, e1), SortKey(f, e2);
    GroupFirst(e1.group, e2.group);
    GroupFirst(PlaceGroup(f, e1), PlaceGroup(f, e2));
    FlagCmp(e1.cluster.Some?, e2.cluster.Some?);
    LexEqual(k1[2], k2[2]);
    FlagCmp(IsDoc(e1), IsDoc(e2));
    LexField(ToLower(FirstChar(e1)), ToLower(FirstChar(e2)));
    LexField(-FirstChar(e1), -FirstChar(e2));
    if GroupBefore(e1.group, e2.group) {
      FirstDifference(k1, k2, if e1.cluster.None? then 0 else 3);
    } else if IsDoc(e1) != IsDoc(e2) {
      FirstDifference(k1, k2, 4);
    } else if ToLower(FirstChar(e1)) != ToLower(FirstChar(e2)) {
      FirstDifference(k1, k2, 5);
    } else {
      FirstDifference(k1, k2, 6);
    }
  }

  /** Where the groups and the clusters decide. */
  lemma LineageDecides(f: Forest, e1: Entry, e2: Entry)
    requires WellFormed(f, e1) && WellFormed(f, e2) && e1.cluster.Some? && e2.cluster.Some?
    requires Lex(ClosedLineage(f, e1.cluster.value), ClosedLineage(f, e2.cluster.value)) == -1
    requires PlaceGroup(f, e1) == PlaceGroup(f, e2) || GroupBefore(PlaceGroup(f, e1), PlaceGroup(f, e2))
    ensures Order(f, e1, e2) == -1
  {
    hide Lex, KeyCmp, GroupKey, ClosedLineage, BaseOf, Lineage, Grown, FirstShortOf, SortName, IsDoc, Folded;
    hide FirstChar, PlaceGroup;
    var k1, k2 := SortKey(f, e1), SortKey(f, e2);
    GroupFirst(PlaceGroup(f, e1), PlaceGroup(f, e2));
    FlagCmp(true, true);
    FirstDifference(k1, k2, if PlaceGroup(f, e1) != PlaceGroup(f, e2) then 0 else 2);
  }

  lemma ClusterFirst(f: Forest, e1: Entry, e2: Entry)
    requires WellFormed(f, e1) && WellFormed(f, e2) && e1.cluster.Some? && e2.cluster.Some?
    requires ClusterBefore(f, e1.cluster.value, e2.cluster.value)
    ensures Order(f, e1, e2) == -1
  {
    hide Lex, ClosedLineage, Lineage, Order, BaseOf;
    var a, b := e1.cluster.value, e2.cluster.value;
    if IsAbove(f, a, b) {
      AboveFirst(f, a, b);
    } else {
      SiblingFirst(f, a, b);
    }
    LineageDecides(f, e1, e2);
  }

  /** The comparison keeps the documented order. */
  lemma OrderIsDocumented(f: Forest, e1: Entry, e2: Entry)
    requires WellFormed(f, e1) && WellFormed(f, e2) && MustPrecede(f, e1, e2)
    ensures Order(f, e1, e2) == -1
  {
    hide Lex, KeyCmp, GroupKey, ClosedLineage, FirstShortOf, SortName, IsDoc, Folded, FirstChar, InnerBefore;
    match (e1.cluster, e2.cluster) {
      case (Some(a), Some(b)) =>
        if ClusterBefore(f, a, b) { ClusterFirst(f, e1, e2); } else { InnerFirst(f, e1, e2); }
      case (None, None) =>
        InnerFirst(f, e1, e2);
      case _ =>
        GroupFirst(PlaceGroup(f, e1), PlaceGroup(f, e2));
        FlagCmp(e1.cluster.Some?, e2.cluster.Some?);
        FirstDifference(SortKey(f, e1), SortKey(f, e2), if PlaceGroup(f, e1) != PlaceGroup(f, e2) then 0 else 1);
    }
  }

  method SortNameOf(e: Entry) returns (doc: bool, name: Option<Text>)
    requires e.opts != []
    ensures doc == IsDoc(e) && name == SortName(e)
  {
    name := FirstLong(e);
    doc := false;
    if e.opts[0].doc && name.Some? {
      var tail;
      doc, tail := CanonDocOption(name.value);
      name := Some(tail);
    }
  }

  /** `hol_entry_cmp`: compares by the sort key. */
  method EntryCmp(f: Forest, e1: Entry, e2: Entry) returns (cmp: int)
    requires WellFormed(f, e1) && WellFormed(f, e2) && NamesEnd(e1) && NamesEnd(e2)
    ensures Sign(cmp) == KeyCmp(SortKey(f, e1), SortKey(f, e2))
    ensures MustPrecede(f, e1, e2) ==> cmp < 0
    ensures MustPrecede(f, e2, e1) ==> cmp > 0
  {
    hide KeyCmp, SortKey, Grown, NamesEnd, MustPrecede;
    if MustPrecede(f, e1, e2) { OrderIsDocumented(f, e1, e2); }
    if MustPrecede(f, e2, e1) { OrderIsDocumented(f, e2, e1); }
    OrderIsAntisymmetric(f, e1, e2);
    cmp := PlaceCmp(f, e1, e2);
    if cmp != 0 {
      return;
    }
    cmp := LookCmp(f, e1, e2);
  }

  /** The criteria after the place: documentation, the first character, and the names. */
  method LookCmp(f: Forest, e1: Entry, e2: Entry) returns (cmp: int)
    requires WellFormed(f, e1) && WellFormed(f, e2) && NamesEnd(e1) && NamesEnd(e2)
    requires AgreeUpTo(SortKey(f, e1), SortKey(f, e2), 4)
    ensures Sign(cmp) == KeyCmp(SortKey(f, e1), SortKey(f, e2))
  {
    hide Lex, KeyCmp, GroupCmp, GroupKey, ClosedLineage, Lineage, BaseOf, Grown, FirstShortOf, SortName, IsDoc,
         NamesEnd, ToLower, Folded, StrCaseCmp;
    ghost var k1, k2 := SortKey(f, e1), SortKey(f, e2);
    var doc1, long1 := SortNameOf(e1);
    var doc2, long2 := SortNameOf(e2);
    cmp := Bit(doc1) - Bit(doc2);
    FlagCmp(doc1, doc2);
    if cmp != 0 {
      FirstDifference(k1, k2, 4);
      return;
    }
    var short1 := FirstShort(e1);
    var short2 := FirstShort(e2);
    var first1: int := if short1 != 0 then short1 else if long1.Some? && long1.value != [] then long1.value[0] else 0;
    var first2: int := if short2 != 0 then short2 else if long2.Some? && long2.value != [] then long2.value[0] else 0;
    cmp := ToLower(first1) - ToLower(first2);
    LexField(ToLower(first1), ToLower(first2));
    if cmp != 0 {
      FirstDifference(k1, k2, 5);
      return;
    }
    cmp := first2 - first1;
    LexField(-first1, -first2);
    if cmp != 0 {
      FirstDifference(k1, k2, 6);
      return;
    }
    cmp := NameCmp(f, e1, e2, short1, short2, long1, long2);
  }

  /** The last criteria: entries with a short option after those without, then the long names. */
  method NameCmp(f: Forest, e1: Entry, e2: Entry, short1: int, short2: int, long1: Option<Text>, long2: Option<Text>)
    returns (cmp: int)
    requires WellFormed(f, e1) && WellFormed(f, e2) && NamesEnd(e1) && NamesEnd(e2)
    requires short1 == FirstShortOf(e1.opts, e1.shorts) && short2 == FirstShortOf(e2.opts, e2.shorts)
    requires long1 == SortName(e1) && long2 == SortName(e2)
    requires AgreeUpTo(SortKey(f, e1), SortKey(f, e2), 7)
    ensures Sign(cmp) == KeyCmp(SortKey(f, e1), SortKey(f, e2))
  {
    hide Lex, KeyCmp, GroupCmp, GroupKey, ClosedLineage, Lineage, BaseOf, Grown, FirstShortOf, SortName, IsDoc,
         NamesEnd, ToLower, Folded, StrCaseCmp;
    ghost var k1, k2 := SortKey(f, e1), SortKey(f, e2);
    cmp := Bit(short1 != 0) - Bit(short2 != 0);
    FlagCmp(short1 != 0, short2 != 0);
    if cmp != 0 {
      FirstDifference(k1, k2, 7);
      return;
    }
    if short1 == 0 {
      cmp := Bit(long1.Some?) - Bit(long2.Some?);
      FlagCmp(long1.Some?, long2.Some?);
      if cmp != 0 {
        FirstDifference(k1, k2, 8);
        return;
      }
      if long1.Some? {
        cmp := StrCaseCmp(long1.value, long2.value);
        SortNameEnds(e1);
        SortNameEnds(e2);
        StrCaseCmpByKey(long1.value, long2.value);
        if cmp != 0 {
          FirstDifference(k1, k2, 9);
          return;
        }
      }
    }
    if short1 != 0 || long1.None? {
      FlagCmp(false, false);
      LexEqual([], []);
    }
    FirstDifference(k1, k2, 10);
    return 0;
  }

  function Order(f: Forest, e1: Entry, e2: Entry): (r: int)
    requires WellFormed(f, e1) && WellFormed(f, e2)
    ensures r == -1 || r == 0 || r == 1
  {
    KeyCmp(SortKey(f, e1), SortKey(f, e2))
  }

  /** The order of two entries does not depend on which is asked about first; entries that compare
      equal are those with the same sort key. */
  lemma OrderIsAntisymmetric(f: Forest, e1: Entry, e2: Entry)
    requires WellFormed(f, e1) && WellFormed(f, e2)
    ensures Order(f, e2, e1) == -Order(f, e1, e2)
    ensures Order(f, e1, e2) == 0 <==> SortKey(f, e1) == SortKey(f, e2)
  {
    KeyCmpSwap(SortKey(f, e1), SortKey(f, e2));
    KeyCmpEqual(SortKey(f, e1), SortKey(f, e2));
  }

  /** The four laws of a total order that the comparison promises, ties included. */
  lemma OrderIsTransitive(f: Forest, e1: Entry, e2: Entry, e3: Entry)
    requires WellFormed(f, e1) && WellFormed(f, e2) && WellFormed(f, e3)
    ensures Order(f, e1, e2) < 0 && Order(f, e2, e3) < 0 ==> Order(f, e1, e3) < 0
    ensures Order(f, e1, e2) < 0 && Order(f, e2, e3) == 0 ==> Order(f, e1, e3) < 0
    ensures Order(f, e1, e2) == 0 && Order(f, e2, e3) < 0 ==> Order(f, e1, e3) < 0
    ensures Order(f, e1, e2) == 0 && Order(f, e2, e3) == 0 ==> Order(f, e1, e3) == 0
  {
    if Order(f, e1, e2) <= 0 && Order(f, e2, e3) <= 0 {
      KeyCmpTransitive(SortKey(f, e1), SortKey(f, e2), SortKey(f, e3));
    }
  }

  /** Among entries that agree on everything before it, one with a short option comes after one
      without. */
  lemma ShortOptionComesAfter(f: Forest, e1: Entry, e2: Entry)
    requires WellFormed(f, e1) && WellFormed(f, e2)
    requires SortKey(f, e1)[..7] == SortKey(f, e2)[..7]
    requires FirstShortOf(e1.opts, e1.shorts) != 0 && FirstShortOf(e2.opts, e2.shorts) == 0
    ensures Order(f, e1, e2) == 1
  {
    var k1, k2 := SortKey(f, e1), SortKey(f, e2);
    forall i | 0 <= i < 7 ensures Lex(k1[i], k2[i]) == 0 {
      assert k1[i] == k1[..7][i] && k2[i] == k2[..7][i];
      LexEqual(k1[i], k2[i]);
    }
    LexField(1, 0);
    FirstDifference(k1, k2, 7);
  }

  /** Such entries exist: `-a` comes after `--a`. */
  lemma ShortOptionExample(short: Entry, long: Entry)
    requires short == Entry([Opt(None, 97, false, false, false)], [97], 0, None)
    requires long == Entry([Opt(Some([97]), 0, false, false, false)], [], 0, None)
    ensures Order([], short, long) == 1
  {
    hide Lineage, ClosedLineage, BaseOf, IsSpace, SkipSpaces, SkipToAlnum, Lex, KeyCmp;
    assert long.opts[1..] == [] && short.opts[1..] == [];
    assert SortKey([], short)[..7] == SortKey([], long)[..7];
    ShortOptionComesAfter([], short, long);
  }
}
