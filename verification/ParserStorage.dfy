/** The tables argp builds for getopt: what `convert_options` writes against what `calc_sizes`
    counted (argp-parse.c). */
module ParserStorage {
  import opened Common
  import opened CString

  const COLON: Byte := 58
  const PLUS: Byte := 43
  const MINUS: Byte := 45

  datatype Opt = Opt(name: Option<Text>, key: int, arg: bool, argOptional: bool, alias: bool, doc: bool)

  /** `options` and `children` hold the entries before the terminating zero entry; a missing vector of
      children is an empty one. */
  datatype Argp = Argp(options: Option<seq<Opt>>, parser: bool, children: seq<Argp>)

  datatype Flags = Flags(inOrder: bool, noArgs: bool)

  // ----- Counting -----

  datatype Sizes = Sizes(short: nat, long: nat, groups: nat, inputs: nat)

  function Add(a: Sizes, b: Sizes): Sizes {
    Sizes(a.short + b.short, a.long + b.long, a.groups + b.groups, a.inputs + b.inputs)
  }

  predicate IsGroup(a: Argp) {
    a.options.Some? || a.parser
  }

  function OptionsOf(a: Argp): seq<Opt> {
    if a.options.Some? then a.options.value else []
  }

  function Own(a: Argp): Sizes {
    Sizes(3 * |OptionsOf(a)|, |OptionsOf(a)|, if IsGroup(a) then 1 else 0, |a.children|)
  }

  function Total(a: Argp): Sizes {
    Add(Own(a), Sum(a.children))
  }

  function Sum(cs: seq<Argp>): Sizes {
    if cs == [] then Sizes(0, 0, 0, 0) else Add(Sum(cs[..|cs| - 1]), Total(cs[|cs| - 1]))
  }

  function OneChild(sizes: Sizes): Sizes {
    sizes.(inputs := sizes.inputs + 1)
  }

  /** What `calc_sizes` has counted after the first `i` children. */
  function Counted(sizes: Sizes, a: Argp, i: nat): Sizes
    requires i <= |a.children|
  {
    if i == 0 then Add(sizes, Own(a)).(inputs := sizes.inputs)
    else OneChild(Add(Counted(sizes, a, i - 1), Total(a.children[i - 1])))
  }

  lemma SumSteps(cs: seq<Argp>, i: nat)
    requires i <= |cs|
    ensures Sum(cs[..0]) == Sizes(0, 0, 0, 0)
    ensures i < |cs| ==> Sum(cs[..i + 1]) == Add(Sum(cs[..i]), Total(cs[i]))
  {
    if i < |cs| {
      assert cs[..i + 1][..i] == cs[..i];
    }
  }

  lemma {:induction false} CountedFields(sizes: Sizes, a: Argp, i: nat)
    requires i <= |a.children|
    ensures
      var c, own, z := Counted(sizes, a, i), Own(a), Sum(a.children[..i]);
      && c.short == sizes.short + own.short + z.short
      && c.long == sizes.long + own.long + z.long
      && c.groups == sizes.groups + own.groups + z.groups
      && c.inputs == sizes.inputs + z.inputs + i
  {
    hide Sum, Own, Total;
    SumSteps(a.children, if i == 0 then 0 else i - 1);
    if i > 0 {
      CountedFields(sizes, a, i - 1);
    }
  }

  lemma CountedAll(sizes: Sizes, a: Argp)
    ensures Counted(sizes, a, |a.children|) == Add(sizes, Total(a))
  {
    hide Sum, Counted;
    CountedFields(sizes, a, |a.children|);
    assert a.children[..|a.children|] == a.children;
  }

  method CalcOwn(a: Argp, sizes: Sizes) returns (r: Sizes)
    ensures r == Add(sizes, Own(a)).(inputs := sizes.inputs)
  {
    r := sizes;
    if a.options.Some? || a.parser {
      r := r.(groups := r.groups + 1);
      if a.options.Some? {
        var count := |a.options.value|;
        r := r.(short := r.short + count * 3, long := r.long + count);
      }
    }
  }

  /** `calc_sizes`. */
  method CalcSizes(a: Argp, sizes: Sizes) returns (r: Sizes)
    ensures r == Add(sizes, Total(a))
  {
    hide Add, Own, Sum, Total;
    r := CalcOwn(a, sizes);
    for i := 0 to |a.children|
      invariant r == Counted(sizes, a, i)
    {
      r := CalcSizes(a.children[i], r);
      r := OneChild(r);
    }
    CountedAll(sizes, a);
  }

  // ----- What the tables hold -----

  datatype HasArg = NoArgument | RequiredArgument | OptionalArgument

  datatype Long = Long(name: Text, hasArg: HasArg, val: int)

  datatype Group = Group(parser: bool, shortEnd: nat, parent: Option<nat>, parentIndex: nat, childInputs: Option<nat>)

  datatype Tables = Tables(shorts: Text, longs: seq<Long>, groups: seq<Group>, inputs: nat)

  const USER_VALUES := 0x100_0000

  /** The user's key in the low 24 bits and the group's number above them. */
  function Val(key: int, group: nat): int {
    key % USER_VALUES + (group + 1) * USER_VALUES
  }

  predicate IsShort(o: Opt) {
    !o.doc && 32 <= o.key <= 126
  }

  /** The option whose argument an entry shares: the latest that is not an alias. */
  function RealAt(opts: seq<Opt>, i: nat): (r: nat)
    requires i < |opts|
    ensures r <= i && (r == 0 || !opts[r].alias)
  {
    if !opts[i].alias || i == 0 then i else RealAt(opts, i - 1)
  }

  lemma {:induction false} RealAtIsLatest(opts: seq<Opt>, i: nat)
    requires i < |opts|
    ensures forall k :: RealAt(opts, i) < k <= i ==> opts[k].alias
  {
    if opts[i].alias && i > 0 {
      RealAtIsLatest(opts, i - 1);
    }
  }

  /** The key, one colon for an argument, two for an optional one. */
  function ShortOf(o: Opt, base: Opt): (s: Text)
    ensures |s| <= 3
    ensures base.doc || !IsShort(o) ==> s == []
    ensures !base.doc && IsShort(o) && !base.arg ==> s == [o.key]
    ensures !base.doc && IsShort(o) && base.arg && !base.argOptional ==> s == [o.key, COLON]
    ensures !base.doc && IsShort(o) && base.arg && base.argOptional ==> s == [o.key, COLON, COLON]
  {
    if base.doc || !IsShort(o) then []
    else [o.key] + if !base.arg then [] else if base.argOptional then [COLON, COLON] else [COLON]
  }

  ghost predicate HasLong(longs: seq<Long>, name: Text) {
    exists i :: 0 <= i < |longs| && longs[i].name == name
  }

  function LongOf(o: Opt, base: Opt, group: nat): Long
    requires o.name.Some?
  {
    Long(o.name.value,
         if !base.arg then NoArgument else if base.argOptional then OptionalArgument else RequiredArgument,
         Val(if o.key != 0 then o.key else base.key, group))
  }

  ghost function AddOption(t: Tables, o: Opt, base: Opt, group: nat): Tables {
    t.(shorts := t.shorts + ShortOf(o, base),
       longs := if base.doc || o.name.None? || HasLong(t.longs, o.name.value) then t.longs
                else t.longs + [LongOf(o, base, group)])
  }

  ghost function AddOptions(t: Tables, opts: seq<Opt>, n: nat, group: nat): Tables
    requires n <= |opts|
  {
    if n == 0 then t else AddOption(AddOptions(t, opts, n - 1, group), opts[n - 1], opts[RealAt(opts, n - 1)], group)
  }

  ghost function AddGroup(t: Tables, a: Argp, parent: Option<nat>, index: nat): Tables {
    if !IsGroup(a) then t else
      var u := AddOptions(t, OptionsOf(a), |OptionsOf(a)|, |t.groups|);
      var childInputs := if a.children != [] then Some(t.inputs) else None;
      u.(groups := t.groups + [Group(a.parser, |u.shorts|, parent, index, childInputs)],
         inputs := t.inputs + |a.children|)
  }

  ghost function Convert(t: Tables, a: Argp, parent: Option<nat>, index: nat): Tables
    decreases a
  {
    ConvertAll(AddGroup(t, a, parent, index), a.children, if IsGroup(a) then Some(|t.groups|) else None)
  }

  ghost function ConvertAll(t: Tables, cs: seq<Argp>, parent: Option<nat>): Tables
    decreases cs
  {
    if cs == [] then t
    else Convert(ConvertAll(t, cs[..|cs| - 1], parent), cs[|cs| - 1], parent, |cs| - 1)
  }

  // ----- What is written fits what was counted -----

  /** An option that takes three characters: its key and two colons. */
  predicate Widest(o: Opt, base: Opt) {
    !base.doc && IsShort(o) && base.arg && base.argOptional
  }

  predicate OwnWidest(opts: seq<Opt>, n: nat)
    requires n <= |opts|
  {
    forall i :: 0 <= i < n ==> Widest(opts[i], opts[RealAt(opts, i)])
  }

  predicate AllWidest(a: Argp) {
    OwnWidest(OptionsOf(a), |OptionsOf(a)|) && ChildrenWidest(a.children)
  }

  predicate ChildrenWidest(cs: seq<Argp>) {
    cs == [] || (ChildrenWidest(cs[..|cs| - 1]) && AllWidest(cs[|cs| - 1]))
  }

  /** `u` extends `t` by no more than `z`; the short options take all of it exactly when `full`. */
  ghost predicate Within(t: Tables, u: Tables, z: Sizes, full: bool) {
    && |u.groups| == |t.groups| + z.groups
    && |t.longs| <= |u.longs| <= |t.longs| + z.long
    && |t.shorts| <= |u.shorts| <= |t.shorts| + z.short
    && (|u.shorts| == |t.shorts| + z.short <==> full)
    && t.inputs <= u.inputs <= t.inputs + z.inputs
  }

  lemma OptionFits(t: Tables, o: Opt, base: Opt, group: nat)
    ensures var u := AddOption(t, o, base, group);
      Within(t, u, Sizes(3, 1, 0, 0), Widest(o, base)) && u.inputs == t.inputs && u.groups == t.groups
  {
    hide LongOf, HasLong;
  }

  lemma WidestStep(opts: seq<Opt>, n: nat)
    requires n <= |opts|
    ensures n == 0 ==> OwnWidest(opts, n)
    ensures n > 0 ==>
              (OwnWidest(opts, n) <==> OwnWidest(opts, n - 1) && Widest(opts[n - 1], opts[RealAt(opts, n - 1)]))
  {
    hide RealAt, Widest;
  }

  lemma {:induction false} OptionsFit(t: Tables, opts: seq<Opt>, n: nat, group: nat)
    requires n <= |opts|
    ensures Within(t, AddOptions(t, opts, n, group), Sizes(3 * n, n, 0, 0), OwnWidest(opts, n))
    ensures AddOptions(t, opts, n, group).inputs == t.inputs && AddOptions(t, opts, n, group).groups == t.groups
  {
    hide AddOption, OwnWidest, RealAt, Widest;
    WidestStep(opts, n);
    if n > 0 {
      hide Within;
      var u, o, base := AddOptions(t, opts, n - 1, group), opts[n - 1], opts[RealAt(opts, n - 1)];
      OptionsFit(t, opts, n - 1, group);
      OptionFits(u, o, base, group);
      WithinTwice(t, u, AddOption(u, o, base, group), Sizes(3 * (n - 1), n - 1, 0, 0), Sizes(3, 1, 0, 0),
                  OwnWidest(opts, n - 1), Widest(o, base));
    }
  }

  lemma {:induction false} GroupFits(t: Tables, a: Argp, parent: Option<nat>, index: nat)
    ensures Within(t, AddGroup(t, a, parent, index), Own(a), OwnWidest(OptionsOf(a), |OptionsOf(a)|))
  {
    OptionsFit(t, OptionsOf(a), |OptionsOf(a)|, |t.groups|);
  }

  lemma WithinTwice(t: Tables, u: Tables, v: Tables, y: Sizes, z: Sizes, f: bool, g: bool)
    requires Within(t, u, y, f) && Within(u, v, z, g)
    ensures Within(t, v, Add(y, z), f && g)
  {
  }

  /** Everything `convert_options` writes fits what `calc_sizes` counted. */
  lemma {:induction false} ConvertFits(t: Tables, a: Argp, parent: Option<nat>, index: nat)
    ensures Within(t, Convert(t, a, parent, index), Total(a), AllWidest(a))
    decreases a
  {
    hide Within, AddGroup, OwnWidest, Own, Add;
    var u := AddGroup(t, a, parent, index);
    var up := if IsGroup(a) then Some(|t.groups|) else None;
    GroupFits(t, a, parent, index);
    AllFit(u, a.children, up);
    WithinTwice(t, u, ConvertAll(u, a.children, up), Own(a), Sum(a.children),
                OwnWidest(OptionsOf(a), |OptionsOf(a)|), ChildrenWidest(a.children));
  }

  lemma {:induction false} AllFit(t: Tables, cs: seq<Argp>, parent: Option<nat>)
    ensures Within(t, ConvertAll(t, cs, parent), Sum(cs), ChildrenWidest(cs))
    decreases cs
  {
    if cs != [] {
      hide Within, Add;
      var init, last := cs[..|cs| - 1], cs[|cs| - 1];
      var u := ConvertAll(t, init, parent);
      AllFit(t, init, parent);
      ConvertFits(u, last, parent, |cs| - 1);
      WithinTwice(t, u, Convert(u, last, parent, |cs| - 1), Sum(init), Total(last), ChildrenWidest(init),
          AllWidest(last));
    }
  }

  // ----- Long names -----

  ghost predicate Distinct(longs: seq<Long>) {
    forall i, j :: 0 <= i < j < |longs| ==> longs[i].name != longs[j].name
  }

  /** Options `0..n` of a group give this long name to a real option. */
  ghost predicate OwnName(opts: seq<Opt>, n: nat, name: Text)
    requires n <= |opts|
  {
    exists i :: 0 <= i < n && opts[i].name == Some(name) && !opts[RealAt(opts, i)].doc
  }

  /** The tree gives this long name to a real option. */
  ghost predicate Named(a: Argp, name: Text) {
    OwnName(OptionsOf(a), |OptionsOf(a)|, name) || ChildNamed(a.children, name)
  }

  ghost predicate ChildNamed(cs: seq<Argp>, name: Text) {
    cs != [] && (ChildNamed(cs[..|cs| - 1], name) || Named(cs[|cs| - 1], name))
  }

  lemma AddedName(longs: seq<Long>, long: Long, name: Text)
    ensures HasLong(longs + [long], name) <==> HasLong(longs, name) || long.name == name
  {
    var more := longs + [long];
    assert more[|longs|] == long;
    assert forall i :: 0 <= i < |longs| ==> more[i] == longs[i];
  }

  lemma OwnNameStep(opts: seq<Opt>, n: nat, name: Text)
    requires 0 < n <= |opts|
    ensures OwnName(opts, n, name) <==>
            OwnName(opts, n - 1, name) || (opts[n - 1].name == Some(name) && !opts[RealAt(opts, n - 1)].doc)
  {
  }

  lemma OptionName(t: Tables, o: Opt, base: Opt, group: nat, name: Text)
    requires Distinct(t.longs)
    ensures Distinct(AddOption(t, o, base, group).longs)
    ensures HasLong(AddOption(t, o, base, group).longs, name) <==>
            HasLong(t.longs, name) || (o.name == Some(name) && !base.doc)
  {
    if o.name.Some? && !base.doc && !HasLong(t.longs, o.name.value) {
      AddedName(t.longs, LongOf(o, base, group), name);
    }
  }

  lemma {:induction false} OptionNames(t: Tables, opts: seq<Opt>, n: nat, group: nat, name: Text)
    requires n <= |opts| && Distinct(t.longs)
    ensures Distinct(AddOptions(t, opts, n, group).longs)
    ensures HasLong(AddOptions(t, opts, n, group).longs, name) <==> HasLong(t.longs, name) || OwnName(opts, n, name)
  {
    if n > 0 {
      hide Distinct, HasLong, AddOption, OwnName;
      OptionNames(t, opts, n - 1, group, name);
      OwnNameStep(opts, n, name);
      OptionName(AddOptions(t, opts, n - 1, group), opts[n - 1], opts[RealAt(opts, n - 1)], group, name);
    }
  }

  /** The long options end up without duplicates, and are exactly the names of the real options of the
      tree. */
  lemma {:induction false} ConvertNames(t: Tables, a: Argp, parent: Option<nat>, index: nat, name: Text)
    requires Distinct(t.longs)
    ensures Distinct(Convert(t, a, parent, index).longs)
    ensures HasLong(Convert(t, a, parent, index).longs, name) <==> HasLong(t.longs, name) || Named(a, name)
    decreases a
  {
    hide Distinct, HasLong;
    var u := AddGroup(t, a, parent, index);
    OptionNames(t, OptionsOf(a), |OptionsOf(a)|, |t.groups|, name);
    AllNames(u, a.children, if IsGroup(a) then Some(|t.groups|) else None, name);
  }

  lemma {:induction false} AllNames(t: Tables, cs: seq<Argp>, parent: Option<nat>, name: Text)
    requires Distinct(t.longs)
    ensures Distinct(ConvertAll(t, cs, parent).longs)
    ensures HasLong(ConvertAll(t, cs, parent).longs, name) <==> HasLong(t.longs, name) || ChildNamed(cs, name)
    decreases cs
  {
    hide Distinct, HasLong;
    if cs != [] {
      AllNames(t, cs[..|cs| - 1], parent, name);
      ConvertNames(ConvertAll(t, cs[..|cs| - 1], parent), cs[|cs| - 1], parent, |cs| - 1, name);
    }
  }

  // ----- What the entries say -----

  /** The long option stands for this option: its name, whether its base takes an argument, and the key. */
  predicate Gives(o: Opt, base: Opt, long: Long) {
    && o.name == Some(long.name) && !base.doc
    && (long.hasArg == NoArgument <==> !base.arg)
    && (long.hasArg == OptionalArgument <==> base.arg && base.argOptional)
    && (long.hasArg == RequiredArgument <==> base.arg && !base.argOptional)
    && long.val % USER_VALUES == (if o.key != 0 then o.key else base.key) % USER_VALUES
  }

  ghost predicate OwnGives(opts: seq<Opt>, n: nat, long: Long)
    requires n <= |opts|
  {
    exists i :: 0 <= i < n && Gives(opts[i], opts[RealAt(opts, i)], long)
  }

  ghost predicate TreeGives(a: Argp, long: Long) {
    OwnGives(OptionsOf(a), |OptionsOf(a)|, long) || ChildGives(a.children, long)
  }

  ghost predicate ChildGives(cs: seq<Argp>, long: Long) {
    cs != [] && (ChildGives(cs[..|cs| - 1], long) || TreeGives(cs[|cs| - 1], long))
  }

  /** The short options of the tree, in the order of the options. */
  function OwnShorts(opts: seq<Opt>, n: nat): Text
    requires n <= |opts|
  {
    if n == 0 then [] else OwnShorts(opts, n - 1) + ShortOf(opts[n - 1], opts[RealAt(opts, n - 1)])
  }

  function TreeShorts(a: Argp): Text {
    OwnShorts(OptionsOf(a), |OptionsOf(a)|) + ChildShorts(a.children)
  }

  function ChildShorts(cs: seq<Argp>): Text {
    if cs == [] then [] else ChildShorts(cs[..|cs| - 1]) + TreeShorts(cs[|cs| - 1])
  }

  lemma LongGives(o: Opt, base: Opt, group: nat)
    requires o.name.Some? && !base.doc
    ensures Gives(o, base, LongOf(o, base, group))
  {
    var key := if o.key != 0 then o.key else base.key;
    assert Val(key, group) % USER_VALUES == key % USER_VALUES;
  }

  lemma OptionGives(t: Tables, o: Opt, base: Opt, group: nat, long: Long)
    ensures long in AddOption(t, o, base, group).longs ==> long in t.longs || Gives(o, base, long)
    ensures AddOption(t, o, base, group).shorts == t.shorts + ShortOf(o, base)
  {
    hide Gives, LongOf, ShortOf, HasLong;
    if o.name.Some? && !base.doc {
      LongGives(o, base, group);
    }
  }

  lemma OwnGivesStep(opts: seq<Opt>, n: nat, long: Long)
    requires 0 < n <= |opts|
    ensures OwnGives(opts, n - 1, long) || Gives(opts[n - 1], opts[RealAt(opts, n - 1)], long) ==>
              OwnGives(opts, n, long)
  {
    hide Gives, RealAt;
  }

  lemma {:induction false} OptionsGive(t: Tables, opts: seq<Opt>, n: nat, group: nat, long: Long)
    requires n <= |opts|
    ensures long in AddOptions(t, opts, n, group).longs ==> long in t.longs || OwnGives(opts, n, long)
    ensures AddOptions(t, opts, n, group).shorts == t.shorts + OwnShorts(opts, n)
  {
    hide AddOption, OwnGives, Gives, ShortOf, RealAt;
    if n > 0 {
      OptionsGive(t, opts, n - 1, group, long);
      OwnGivesStep(opts, n, long);
      var u, o, base := AddOptions(t, opts, n - 1, group), opts[n - 1], opts[RealAt(opts, n - 1)];
      OptionGives(u, o, base, group, long);
      var own := OwnShorts(opts, n - 1);
      assert t.shorts + own + ShortOf(o, base) == t.shorts + (own + ShortOf(o, base));
    }
  }

  /** Every long option of the tables comes from an option of the tree, and the short options are those of the
      tree, one after the other. */
  lemma {:induction false} ConvertGives(t: Tables, a: Argp, parent: Option<nat>, index: nat, long: Long)
    ensures long in Convert(t, a, parent, index).longs ==> long in t.longs || TreeGives(a, long)
    ensures Convert(t, a, parent, index).shorts == t.shorts + TreeShorts(a)
    decreases a
  {
    hide OwnGives, OwnShorts, AddOptions;
    var u := AddGroup(t, a, parent, index);
    OptionsGive(t, OptionsOf(a), |OptionsOf(a)|, |t.groups|, long);
    NoOptions(t, OptionsOf(a), |t.groups|);
    AllGive(u, a.children, if IsGroup(a) then Some(|t.groups|) else None, long);
  }

  lemma NoOptions(t: Tables, opts: seq<Opt>, group: nat)
    ensures opts == [] ==> AddOptions(t, opts, |opts|, group) == t && OwnShorts(opts, |opts|) == []
  {
  }

  lemma {:induction false} AllGive(t: Tables, cs: seq<Argp>, parent: Option<nat>, long: Long)
    ensures long in ConvertAll(t, cs, parent).longs ==> long in t.longs || ChildGives(cs, long)
    ensures ConvertAll(t, cs, parent).shorts == t.shorts + ChildShorts(cs)
    decreases cs
  {
    if cs != [] {
      hide TreeGives, TreeShorts, Convert;
      var init, last := cs[..|cs| - 1], cs[|cs| - 1];
      AllGive(t, init, parent, long);
      ConvertGives(ConvertAll(t, init, parent), last, parent, |cs| - 1, long);
    }
  }

  // ----- The conversion -----

  /** The tables of a parser. `overrun` records a write past the end of the short options, the last
      part of the parser's storage. */
  class Parser {
    const shortOpts: array<Byte>
    const longOpts: array<Option<Long>>  // None is the terminator
    const groups: array<Group>
    const inputs: nat
    var shortEnd: nat
    var longEnd: nat
    var inputsEnd: nat
    var overrun: bool
    ghost var tables: Tables

    /** The arrays hold the tables; the part of the short options that does not fit is lost. */
    ghost predicate Valid()
      reads this, shortOpts, longOpts, groups
    {
      && ShortsValid() && LongsValid() && GroupsValid()
      && inputsEnd == tables.inputs <= inputs
    }

    ghost predicate ShortsHeld()
      reads this`shortEnd, this`tables, shortOpts
    {
      && shortEnd == |tables.shorts|
      && forall i :: 0 <= i < shortEnd && i < shortOpts.Length ==> shortOpts[i] == tables.shorts[i]
    }

    ghost predicate ShortsValid()
      reads this`shortEnd, this`tables, this`overrun, shortOpts
    {
      && ShortsHeld()
      && (overrun <==> shortEnd >= shortOpts.Length)
      && (!overrun ==> shortOpts[shortEnd] == 0)
    }

    ghost predicate LongsValid()
      reads this`longEnd, this`tables, longOpts
    {
      && longEnd == |tables.longs| < longOpts.Length && longOpts[longEnd] == None
      && forall i :: 0 <= i < longEnd ==> longOpts[i] == Some(tables.longs[i])
    }

    ghost predicate GroupsValid()
      reads this`tables, groups
    {
      && |tables.groups| <= groups.Length
      && forall i :: 0 <= i < |tables.groups| ==> groups[i] == tables.groups[i]
    }

    /** The storage of `parser_init`, and the start of `parser_convert`. */
    constructor (sizes: Sizes, flags: Flags)
      ensures Valid() && fresh(shortOpts) && fresh(longOpts) && fresh(groups)
      ensures shortOpts.Length == sizes.short + 1 && longOpts.Length == sizes.long + 1
      ensures groups.Length == sizes.groups + 1 && inputs == sizes.inputs
      ensures tables == Tables(Prefix(flags), [], [], 0)
    {
      shortOpts := new Byte[sizes.short + 1](i => 0);
      longOpts := new Option<Long>[sizes.long + 1](i => None);
      groups := new Group[sizes.groups + 1](i => Group(false, 0, None, 0, None));
      inputs := sizes.inputs;
      shortEnd, longEnd, inputsEnd, overrun := 0, 0, 0, false;
      tables := Tables([], [], [], 0);
      new;
      if flags.inOrder {
        PutShort(MINUS);
      } else if flags.noArgs {
        PutShort(PLUS);
      }
      EndShort();
    }

    method PutShort(c: Byte)
      requires ShortsHeld()
      modifies this`shortEnd, this`overrun, this`tables, shortOpts
      ensures ShortsHeld() && tables == old(tables).(shorts := old(tables.shorts) + [c])
      ensures overrun <==> old(overrun) || old(shortEnd) >= shortOpts.Length
    {
      if shortEnd < shortOpts.Length {
        shortOpts[shortEnd] := c;
      } else {
        overrun := true;
      }
      shortEnd := shortEnd + 1;
      tables := tables.(shorts := tables.shorts + [c]);
    }

    method EndShort()
      requires ShortsHeld() && (overrun ==> shortEnd >= shortOpts.Length)
      modifies this`overrun, shortOpts
      ensures ShortsValid()
    {
      if shortEnd < shortOpts.Length {
        shortOpts[shortEnd] := 0;
      } else {
        overrun := true;
      }
    }

    method FindLongOption(name: Text) returns (found: bool)
      requires LongsValid()
      ensures found <==> HasLong(tables.longs, name)
    {
      var l := 0;
      while longOpts[l].Some?
        invariant 0 <= l <= longEnd
        invariant forall i :: 0 <= i < l ==> tables.longs[i].name != name
        decreases longEnd - l
      {
        if longOpts[l].value.name == name {
          return true;
        }
        l := l + 1;
      }
      return false;
    }

    method AddShort(o: Opt, base: Opt)
      requires ShortsValid() && !base.doc
      modifies this`shortEnd, this`overrun, this`tables, shortOpts
      ensures ShortsValid() && tables == old(tables).(shorts := old(tables.shorts) + ShortOf(o, base))
    {
      if IsShort(o) {
        PutShort(o.key);
        if base.arg {
          PutShort(COLON);
          if base.argOptional {
            PutShort(COLON);
          }
        }
        EndShort();
      }
      assert tables.shorts == old(tables.shorts) + ShortOf(o, base);
    }

    method AddLong(o: Opt, base: Opt, group: nat)
      requires LongsValid() && longEnd + 1 < longOpts.Length && !base.doc
      modifies this`longEnd, this`tables, longOpts
      ensures LongsValid() && tables == AddOption(old(tables), o, base, group).(shorts := old(tables.shorts))
    {
      if o.name.Some? {
        var found := FindLongOption(o.name.value);
        if !found {
          var hasArg := if base.arg then (if base.argOptional then OptionalArgument else RequiredArgument)
              else NoArgument;
          longOpts[longEnd] := Some(Long(o.name.value, hasArg, Val(if o.key != 0 then o.key else base.key, group)));
          tables := tables.(longs := tables.longs + [LongOf(o, base, group)]);
          longEnd := longEnd + 1;
          longOpts[longEnd] := None;
        }
      }
    }

    /** The options of one group. */
    method AddGroupOptions(opts: seq<Opt>, group: nat)
      requires Valid() && |tables.longs| + |opts| < longOpts.Length
      modifies this`shortEnd, this`longEnd, this`overrun, this`tables, shortOpts, longOpts
      ensures Valid() && tables == AddOptions(old(tables), opts, |opts|, group)
    {
      var main := 0;
      for i := 0 to |opts|
        invariant main == if i == 0 then 0 else RealAt(opts, i - 1)
        invariant Valid() && tables == AddOptions(old(tables), opts, i, group)
        invariant |tables.longs| <= |old(tables).longs| + i
      {
        var o := opts[i];
        if !o.alias {
          main := i;
        }
        var base := opts[main];
        if !base.doc {
          AddShort(o, base);
          AddLong(o, base, group);
        } else {
          assert tables.shorts + ShortOf(o, base) == tables.shorts;
        }
      }
    }

    /** The group of an argp that has options or a parser. */
    method AddGroupOf(a: Argp, parent: Option<nat>, index: nat, group: nat) returns (next: nat)
      requires Valid() && group == |tables.groups| && Room(tables, Own(a))
      modifies this`shortEnd, this`longEnd, this`inputsEnd, this`overrun, this`tables, shortOpts, longOpts, groups
      ensures Valid() && next == |tables.groups|
      ensures tables == AddGroup(old(tables), a, parent, index)
    {
      hide AddOptions, Within, OwnWidest;
      next := group;
      if a.options.Some? || a.parser {
        OptionsFit(tables, OptionsOf(a), |OptionsOf(a)|, group);
        AddGroupOptions(OptionsOf(a), group);
        var childInputs := None;
        if a.children != [] {
          childInputs := Some(inputsEnd);
          inputsEnd := inputsEnd + |a.children|;
        }
        groups[group] := Group(a.parser, shortEnd, parent, index, childInputs);
        tables := tables.(groups := tables.groups + [groups[group]], inputs := inputsEnd);
        next := group + 1;
      }
    }

    ghost predicate Room(t: Tables, z: Sizes) {
      && |t.longs| + z.long < longOpts.Length
      && |t.groups| + z.groups <= groups.Length
      && t.inputs + z.inputs <= inputs
    }

    lemma RoomForChild(t: Tables, a: Argp, parent: Option<nat>, index: nat, i: nat)
      requires Room(t, Total(a)) && i < |a.children|
      ensures Room(t, Own(a))
      ensures
        var up := if IsGroup(a) then Some(|t.groups|) else None;
        var u := ConvertAll(AddGroup(t, a, parent, index), a.children[..i], up);
        Room(u, Total(a.children[i]))
    {
      hide AddGroup, ConvertAll, Total, Own, OwnWidest, ChildrenWidest;
      var u := AddGroup(t, a, parent, index);
      var upTo := a.children[..i + 1];
      GroupFits(t, a, parent, index);
      AllFit(u, a.children[..i], if IsGroup(a) then Some(|t.groups|) else None);
      assert Sum(upTo) == Add(Sum(a.children[..i]), Total(a.children[i])) by {
        assert upTo[..i] == a.children[..i];
      }
      SumGrows(a.children, i + 1);
      TotalCovers(a);
    }

    /** `convert_options`. */
    method ConvertOptions(a: Argp, parent: Option<nat>, index: nat, group: nat) returns (next: nat)
      requires Valid() && group == |tables.groups| && Room(tables, Total(a))
      modifies this`shortEnd, this`longEnd, this`inputsEnd, this`overrun, this`tables, shortOpts, longOpts, groups
      ensures Valid() && next == |tables.groups|
      ensures tables == Convert(old(tables), a, parent, index)
      decreases a
    {
      hide Valid, Convert, ConvertAll, AddGroup, Total, Own;
      assert Room(tables, Own(a)) by { TotalCovers(a); }
      next := AddGroupOf(a, parent, index, group);
      ghost var u := tables;
      var up := if a.options.Some? || a.parser then Some(group) else None;
      ConvertSteps(old(tables), a, parent, index, 0);
      for i := 0 to |a.children|
        invariant Valid() && next == |tables.groups|
        invariant tables == ConvertAll(u, a.children[..i], up)
      {
        RoomForChild(old(tables), a, parent, index, i);
        next := ConvertOptions(a.children[i], up, i, next);
        ConvertSteps(old(tables), a, parent, index, i);
      }
      ConvertSteps(old(tables), a, parent, index, |a.children|);
    }
  }

  lemma TotalCovers(a: Argp)
    ensures Total(a) == Add(Own(a), Sum(a.children))
  {
  }

  lemma {:induction false} SumGrows(cs: seq<Argp>, i: nat)
    requires i <= |cs|
    ensures Sum(cs[..i]).long <= Sum(cs).long && Sum(cs[..i]).groups <= Sum(cs).groups
    ensures Sum(cs[..i]).inputs <= Sum(cs).inputs
  {
    if i < |cs| {
      SumGrows(cs[..|cs| - 1], i);
      assert cs[..|cs| - 1][..i] == cs[..i];
    } else {
      assert cs[..i] == cs;
    }
  }

  /** The conversion, child by child. */
  lemma ConvertSteps(t: Tables, a: Argp, parent: Option<nat>, index: nat, i: nat)
    requires i <= |a.children|
    ensures
      var u, cs := AddGroup(t, a, parent, index), a.children;
      var up := if IsGroup(a) then Some(|t.groups|) else None;
      && ConvertAll(u, cs[..0], up) == u
      && (i < |cs| ==> ConvertAll(u, cs[..i + 1], up) == Convert(ConvertAll(u, cs[..i], up), cs[i], up, i))
      && (i == |cs| ==> ConvertAll(u, cs[..i], up) == Convert(t, a, parent, index))
  {
    if i < |a.children| {
      assert a.children[..i + 1][..i] == a.children[..i];
    } else {
      assert a.children[..i] == a.children;
    }
  }

  /** `parser_init` up to the conversion: everything fits, except that with ARGP_NO_ARGS the short
      options run over their storage when every option takes three characters. The long options are
      terminated, without duplicates, and name exactly the real options of the tree. */
  method ParserInit(argp: Option<Argp>, flags: Flags) returns (p: Parser, egroup: nat)
    ensures p.Valid() && egroup == |p.tables.groups| <= p.groups.Length
    ensures p.overrun <==> flags.noArgs && (argp.Some? ==> AllWidest(argp.value))
    ensures Distinct(p.tables.longs)
    ensures forall name :: HasLong(p.tables.longs, name) <==> argp.Some? && Named(argp.value, name)
    ensures forall long :: long in p.tables.longs ==> argp.Some? && TreeGives(argp.value, long)
    ensures p.tables.shorts == Prefix(flags) + if argp.Some? then TreeShorts(argp.value) else []
  {
    var sizes := Sizes(if flags.noArgs then 0 else 1, 0, 0, 0);
    if argp.Some? {
      sizes := CalcSizes(argp.value, sizes);
    }
    p := new Parser(sizes, flags);
    egroup := 0;
    if argp.Some? {
      var a := argp.value;
      ghost var t := p.tables;
      ConvertFits(t, a, None, 0);
      egroup := p.ConvertOptions(a, None, 0, 0);
      ConvertNames(t, a, None, 0, []);
      forall name ensures HasLong(p.tables.longs, name) <==> Named(a, name) {
        ConvertNames(t, a, None, 0, name);
      }
      forall long | long in p.tables.longs ensures TreeGives(a, long) {
        ConvertGives(t, a, None, 0, long);
      }
      ConvertGives(t, a, None, 0, Long([], NoArgument, 0));
    }
  }

  /** With ARGP_NO_ARGS, one option `-x` with an optional argument is enough to overrun. */
  method OverrunExample() returns (p: Parser)
    ensures p.overrun
  {
    var a := Argp(Some([Opt(None, 120, true, true, false, false)]), true, []);
    var egroup;
    assert AllWidest(a);
    p, egroup := ParserInit(Some(a), Flags(false, true));
  }

  /** The user's key as read back from a value: the low 24 bits, sign-extended. */
  function UserKey(val: int): int {
    var low := val % USER_VALUES;
    if low >= USER_VALUES / 2 then low - USER_VALUES else low
  }

  const INT_MAX := 0x7fff_ffff

  /** A value is an `int` for the first 127 groups and no others. It gives back the group, and the key
      when that fits in 24 bits. */
  lemma ValReadsBack(key: int, group: nat)
    ensures 0 <= Val(key, group) <= INT_MAX <==> group < 127
    ensures Val(key, group) / USER_VALUES - 1 == group
    ensures UserKey(Val(key, group)) == key <==> -USER_VALUES / 2 <= key < USER_VALUES / 2
  {
    assert Val(key, group) % USER_VALUES == key % USER_VALUES;
  }

  function Prefix(flags: Flags): Text {
    if flags.inOrder then [MINUS] else if flags.noArgs then [PLUS] else []
  }
}
