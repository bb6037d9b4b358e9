/** Building the path of a traversal entry relative to its root: path_build_relative.c. */
module RelativePath {
  import opened Common
  import opened CString

  const ROOT_LEVEL := 0
  const SLASH: Byte := 47
  const DOT: Byte := 46
  const SIZE_MAX := 0xffff_ffff_ffff_ffff

  datatype Entry = Entry(level: int, name: Text, parent: Option<Entry>)

  datatype Error = NullEntry | AboveRoot | EmptyName | Overflow | Detached | SizeMismatch

  /** Below the traversal root. */
  predicate Deep(node: Option<Entry>) {
    node.Some? && node.value.level > ROOT_LEVEL
  }

  /** The names from just below the root down to the entry. */
  function Names(node: Option<Entry>): (names: seq<Text>)
    ensures names == [] <==> !Deep(node)
    decreases node
  {
    if Deep(node) then Names(node.value.parent) + [node.value.name] else []
  }

  /** Where the parent chain leaves the levels below the root. */
  function Top(node: Option<Entry>): Option<Entry>
    decreases node
  {
    if Deep(node) then Top(node.value.parent) else node
  }

  function Join(names: seq<Text>): (path: Text)
    ensures |names| > 0 ==> |path| >= |names[0]|
  {
    if names == [] then []
    else if |names| == 1 then names[0]
    else names[0] + [SLASH] + Join(names[1..])
  }

  lemma {:induction false} JoinAppend(a: seq<Text>, b: seq<Text>)
    requires a != [] && b != []
    ensures Join(a + b) == Join(a) + [SLASH] + Join(b)
  {
    assert (a + b)[0] == a[0] && (a + b)[1..] == a[1..] + b;
    if |a| == 1 {
      assert a[1..] + b == b;
    } else {
      JoinAppend(a[1..], b);
    }
  }

  predicate Proper(names: seq<Text>) {
    forall i :: 0 <= i < |names| ==> names[i] != []
  }

  ghost predicate Buildable(entry: Option<Entry>) {
    && entry.Some?
    && Top(entry).Some?
    && Top(entry).value.level == ROOT_LEVEL
    && Proper(Names(entry))
    && |Join(Names(entry))| < SIZE_MAX
  }

  function PathOf(entry: Option<Entry>): Text {
    if Deep(entry) then Join(Names(entry)) else [DOT]
  }

  /** The length pass, from the entry up to the root. */
  method Measure(entry: Option<Entry>) returns (r: Result<nat, Error>)
    ensures r.Ok? <==> Proper(Names(entry)) && |Join(Names(entry))| <= SIZE_MAX
    ensures r.Ok? ==> r.value == |Join(Names(entry))|
    ensures r.Err? ==> r.error != SizeMismatch
  {
    var length, count, node := 0, 0, entry;
    ghost var below := [];
    assert Names(entry) == Names(entry) + below;
    while Deep(node)
      invariant Names(entry) == Names(node) + below && count == |below|
      invariant length == |Join(below)| <= SIZE_MAX && Proper(below)
      decreases node
    {
      ghost var name, up := node.value.name, Names(node.value.parent);
      assert Names(entry) == up + ([name] + below);
      assert Names(entry)[|up|] == name;
      LongerWhole(up, [name] + below);
      assert ([name] + below)[1..] == below;
      if |node.value.name| == 0 {
        return Err(EmptyName);
      }
      if length > SIZE_MAX - |node.value.name| {
        return Err(Overflow);
      }
      length := length + |node.value.name|;
      if count > 0 {
        if length == SIZE_MAX {
          return Err(Overflow);
        }
        length := length + 1;
      }
      count := count + 1;
      below := [name] + below;
      node := node.value.parent;
    }
    assert Names(node) + below == below;
    return Ok(length);
  }

  lemma LongerWhole(a: seq<Text>, b: seq<Text>)
    requires b != []
    ensures |Join(a + b)| >= |Join(b)|
  {
    if a == [] {
      assert a + b == b;
    } else {
      JoinAppend(a, b);
    }
  }

  /** Put a component, and the separator before it, in front of what is already written. */
  method WriteName(buffer: array<Byte>, end: nat, name: Text, separator: bool) returns (cursor: nat)
    requires |name| + (if separator then 1 else 0) <= end < buffer.Length
    modifies buffer
    ensures cursor == end - |name| - if separator then 1 else 0
    ensures buffer[cursor..] == (if separator then [SLASH] else []) + (name + old(buffer[end..]))
  {
    cursor := end - |name|;
    forall i | 0 <= i < |name| {
      buffer[cursor + i] := name[i];
    }
    ghost var written := buffer[cursor..];
    assert written[..|name|] == name && written[|name|..] == old(buffer[end..]);
    assert written == name + old(buffer[end..]);
    if separator {
      cursor := cursor - 1;
      buffer[cursor] := SLASH;
      assert buffer[cursor..] == [SLASH] + written;
    } else {
      assert [] + written == written;
    }
  }

  /** What the buffer holds from the cursor on, once the names below `node` are written. */
  function Written(node: Option<Entry>, below: seq<Text>): Text {
    (if below != [] && Deep(node) then [SLASH] else []) + (Join(below) + [0])
  }

  lemma JoinStep(name: Text, below: seq<Text>)
    ensures Join([name] + below) + [0] == name + ((if below != [] then [SLASH] else []) + (Join(below) + [0]))
  {
    assert ([name] + below)[1..] == below;
    if below == [] {
      assert [] + (Join(below) + [0]) == [0];
    } else {
      assert Join([name] + below) == name + [SLASH] + Join(below);
    }
  }

  lemma WrittenStep(node: Option<Entry>, below: seq<Text>)
    requires Deep(node)
    ensures
      var name, parent := node.value.name, node.value.parent;
      && (Names(node) + below == Names(parent) + ([name] + below))
      && |Join(Names(node))| == |Join(Names(parent))| + |name| + (if Deep(parent) then 1 else 0)
      && Written(parent, [name] + below) == (if Deep(parent) then [SLASH] else []) + (name + Written(node, below))
  {
    hide Join, Names;
    var name, parent := node.value.name, node.value.parent;
    NamesStep(node);
    assert Names(parent) + [name] + below == Names(parent) + ([name] + below);
    if Deep(parent) {
      JoinAppend(Names(parent), [name]);
    }
    JoinStep(name, below);
    JoinOne(name);
  }

  lemma NamesStep(node: Option<Entry>)
    requires Deep(node)
    ensures Names(node) == Names(node.value.parent) + [node.value.name]
  {
  }

  lemma JoinOne(name: Text)
    ensures Join([name]) == name && Join([]) == [] && [] + [name] == [name]
  {
  }

  /** The write pass, from the terminator back to the first byte. */
  method WriteBackwards(entry: Option<Entry>, buffer: array<Byte>) returns (cursor: nat)
    requires buffer.Length == |Join(Names(entry))| + 1
    modifies buffer
    ensures cursor == 0
    ensures buffer[..] == Join(Names(entry)) + [0]
  {
    cursor := buffer.Length - 1;
    buffer[cursor] := 0;
    var node := entry;
    ghost var below := [];
    assert Names(entry) == Names(entry) + below;
    while Deep(node)
      invariant Names(entry) == Names(node) + below
      invariant cursor == |Join(Names(node))| < buffer.Length
      invariant buffer[cursor..] == Written(node, below)
      decreases node
    {
      WrittenStep(node, below);
      cursor := WriteName(buffer, cursor, node.value.name, Deep(node.value.parent));
      below := [node.value.name] + below;
      node := node.value.parent;
    }
    assert Names(node) + below == below;
    assert buffer[0..] == buffer[..];
  }

  /** `path_build_relative`: succeeds exactly when the chain of non-empty names reaches the root and
      the path fits; the two passes always agree. */
  method PathBuildRelative(entry: Option<Entry>) returns (r: Result<nat, Error>, buffer: array<Byte>)
    ensures r.Ok? <==> Buildable(entry)
    ensures r.Ok? ==> buffer[..] == PathOf(entry) + [0] && r.value == |PathOf(entry)|
    ensures r.Err? ==> r.error != SizeMismatch
  {
    buffer := new Byte[0];
    if entry.None? {
      return Err(NullEntry), buffer;
    }
    if entry.value.level < ROOT_LEVEL {
      return Err(AboveRoot), buffer;
    }
    if entry.value.level == ROOT_LEVEL {
      buffer := new Byte[] [DOT, 0];
      return Ok(1), buffer;
    }
    var measured := Measure(entry);
    if measured.Err? {
      return measured, buffer;
    }
    var length, root := measured.value, entry;
    while Deep(root)
      invariant Top(root) == Top(entry)
      decreases root
    {
      root := root.value.parent;
    }
    if root.None? || root.value.level != ROOT_LEVEL {
      return Err(Detached), buffer;
    }
    if length == SIZE_MAX {
      return Err(Overflow), buffer;
    }
    buffer := new Byte[length + 1];
    var cursor := WriteBackwards(entry, buffer);
    r := if cursor != 0 then Err(SizeMismatch) else Ok(length);
  }

  // ----- Paths identify entries -----

  predicate SlashFree(names: seq<Text>) {
    forall i :: 0 <= i < |names| ==> SLASH !in names[i]
  }

  /** The length of the first component of a path. */
  function HeadLength(path: Text): (n: nat)
    ensures n <= |path|
  {
    if path == [] || path[0] == SLASH then 0 else 1 + HeadLength(path[1..])
  }

  lemma {:induction false} HeadOf(name: Text, rest: Text)
    requires SLASH !in name && (rest == [] || rest[0] == SLASH)
    ensures HeadLength(name + rest) == |name|
  {
    if name == [] {
      assert name + rest == rest;
    } else {
      assert (name + rest)[1..] == name[1..] + rest;
      HeadOf(name[1..], rest);
    }
  }

  /** A path gives back its first name and the path of the others. */
  lemma JoinHead(names: seq<Text>)
    requires names != [] && SlashFree(names)
    ensures Join(names)[..HeadLength(Join(names))] == names[0]
    ensures |names| == 1 <==> HeadLength(Join(names)) == |Join(names)|
    ensures |names| > 1 ==> Join(names)[HeadLength(Join(names)) + 1..] == Join(names[1..])
  {
    if |names| == 1 {
      HeadOf(names[0], []);
      assert names[0] + [] == names[0];
    } else {
      HeadOf(names[0], [SLASH] + Join(names[1..]));
      assert Join(names) == names[0] + ([SLASH] + Join(names[1..]));
    }
  }

  lemma {:induction false} JoinIsInjective(a: seq<Text>, b: seq<Text>)
    requires Proper(a) && Proper(b) && SlashFree(a) && SlashFree(b)
    ensures Join(a) == Join(b) <==> a == b
    decreases |a|
  {
    if Join(a) == Join(b) && a != [] && b != [] {
      JoinHead(a);
      JoinHead(b);
      if |a| > 1 {
        JoinIsInjective(a[1..], b[1..]);
      }
      assert a == [a[0]] + a[1..] && b == [b[0]] + b[1..];
    }
  }

  /** Entries with different chains of names below the root get different paths; the root shares its
      path only with an entry named "." directly below it. */
  lemma DistinctPaths(e1: Option<Entry>, e2: Option<Entry>)
    requires Proper(Names(e1)) && Proper(Names(e2)) && SlashFree(Names(e1)) && SlashFree(Names(e2))
    ensures Deep(e1) == Deep(e2) ==> (PathOf(e1) == PathOf(e2) <==> Names(e1) == Names(e2))
    ensures Deep(e1) && !Deep(e2) ==> (PathOf(e1) == PathOf(e2) <==> Names(e1) == [[DOT]])
  {
    JoinIsInjective(Names(e1), Names(e2));
    JoinIsInjective(Names(e1), [[DOT]]);
  }
}
