/** The configuration file parser: `ini_parse_stream` of inih with the settings of inih_config.h. */
module Ini {
  import opened Common
  import opened CString

  const MAX_LINE := 4096
  const MAX_SECTION := 50
  const MAX_NAME := 50
  const ABYSS := 16

  const NEWLINE: Byte := 10
  const SPACE: Byte := 32
  const HASH: Byte := 35
  const EQUALS: Byte := 61
  const COLON: Byte := 58
  const OPEN: Byte := 91
  const CLOSE: Byte := 93

  // ----- Pieces of a line -----

  function LTrim(s: Text): Text {
    s[Blanks(s)..]
  }

  function RTrim(s: Text): (t: Text)
    ensures t <= s
  {
    if s != [] && IsSpace(s[|s| - 1]) then RTrim(s[..|s| - 1]) else s
  }

  /** The position of the first of `chars`, or of a '#' behind a blank. */
  function Find(s: Text, chars: Text, wasSpace: bool): (n: nat)
    ensures n <= |s|
  {
    if s == [] || s[0] in chars || (wasSpace && s[0] == HASH) then 0
    else 1 + Find(s[1..], chars, IsSpace(s[0]))
  }

  function Uncommented(s: Text): Text {
    s[..Find(s, [], false)]
  }

  /** What fits a buffer of `size` bytes. */
  function Clip(s: Text, size: nat): Text
    requires size > 0
  {
    if |s| < size then s else s[..size - 1]
  }

  // ----- What a line is -----

  datatype Shape = Blank | Continuation(text: Text) | Header(section: Text) | Pair(name: Text, text: Text) | Malformed

  predicate HasBom(s: Text) {
    |s| >= 3 && s[0] == 0xEF && s[1] == 0xBB && s[2] == 0xBF
  }

  /** Indented text after a named value continues that value. */
  function ShapeOfText(s: Text, indented: bool, prev: Text): Shape {
    if s == [] || s[0] == HASH then Blank
    else if prev != [] && indented then Continuation(RTrim(Uncommented(s)))
    else if s[0] == OPEN then
      var end := 1 + Find(s[1..], [CLOSE], false);
      if end < |s| && s[end] == CLOSE then Header(s[1..end]) else Malformed
    else
      var end := Find(s, [EQUALS, COLON], false);
      if end < |s| && s[end] in [EQUALS, COLON] then
        Pair(RTrim(s[..end]), RTrim(LTrim(Uncommented(s[end + 1..]))))
      else Malformed
  }

  function ShapeOf(line: Text, first: bool, prev: Text): Shape {
    var text := if first && HasBom(line) then line[3..] else line;
    ShapeOfText(RTrim(LTrim(text)), |line| - |text| + Blanks(text) > 0, prev)
  }

  // ----- A whole file -----

  /** One call of the handler; a section header has neither name nor value. */
  datatype Call = Call(section: Text, name: Option<Text>, value: Option<Text>, line: nat)

  /** The handler's answer may depend on all earlier calls. */
  type Handler = (seq<Call>, Call) -> bool

  datatype State = State(section: Text, prev: Text, line: nat, calls: seq<Call>, error: nat)

  const START := State([], [], 0, [], 0)

  function Fail(st: State): State {
    if st.error == 0 then st.(error := st.line) else st
  }

  function Emit(accepts: Handler, st: State, name: Option<Text>, value: Option<Text>): State {
    var call := Call(st.section, name, value, st.line);
    var told := st.(calls := st.calls + [call]);
    if accepts(st.calls, call) then told else Fail(told)
  }

  function Obey(accepts: Handler, st: State, shape: Shape): State {
    match shape
    case Blank => st
    case Continuation(text) => Emit(accepts, st, Some(st.prev), Some(text))
    case Header(section) => Emit(accepts, st.(section := Clip(section, MAX_SECTION), prev := []), None, None)
    case Pair(name, text) => Emit(accepts, st.(prev := Clip(name, MAX_NAME)), Some(name), Some(text))
    case Malformed => Fail(st)
  }

  function DoLine(accepts: Handler, st: State, line: Text, tooLong: bool): State {
    var next := st.(line := st.line + 1);
    var noted := if tooLong then Fail(next) else next;
    Obey(accepts, noted, ShapeOf(line, noted.line == 1, st.prev))
  }

  /** How many bytes `fgets` takes for a buffer with room for `room` of them. */
  function Taken(stream: Text, room: nat): (n: nat)
    ensures n <= |stream| && n <= room
    ensures room > 0 && stream != [] ==> n > 0
  {
    if stream == [] || room == 0 then 0
    else if stream[0] == NEWLINE then 1
    else 1 + Taken(stream[1..], room - 1)
  }

  function NulAt(s: Text): (n: nat)
    ensures n <= |s| && (n < |s| ==> s[n] == 0)
    ensures forall i :: 0 <= i < n ==> s[i] != 0
  {
    if s == [] || s[0] == 0 then 0 else 1 + NulAt(s[1..])
  }

  /** The string that the bytes make in a buffer. */
  function UpToNul(s: Text): Text {
    s[..NulAt(s)]
  }

  /** The buffer is full and does not end the line. */
  predicate Full(line: Text) {
    |line| == MAX_LINE - 1 && line[MAX_LINE - 2] != NEWLINE
  }

  /** One read line; the rest of a line that is too long makes it an error. */
  function AfterLine(accepts: Handler, st: State, stream: Text): State {
    var n := Taken(stream, MAX_LINE - 1);
    var line := UpToNul(stream[..n]);
    DoLine(accepts, st, line, Full(line) && stream[n..] != [])
  }

  function Run(accepts: Handler, st: State, stream: Text): State
    decreases |stream|
  {
    if stream == [] then st
    else
      var next := AfterLine(accepts, st, stream);
      if next.error != 0 then next else Run(accepts, next, stream[Taken(stream, MAX_LINE - 1)..])
  }

  // ----- Working on the line buffer -----

  /** The C string `s` is in the buffer at `at`. */
  ghost predicate Holds(buffer: array<Byte>, at: nat, s: Text)
    reads buffer
  {
    && at + |s| < buffer.Length && buffer[at + |s|] == 0
    && forall i :: 0 <= i < |s| ==> buffer[at + i] == s[i] && s[i] != 0
  }

  lemma HoldsTail(buffer: array<Byte>, at: nat, s: Text, k: nat)
    requires Holds(buffer, at, s) && k <= |s|
    ensures Holds(buffer, at + k, s[k..])
    ensures buffer[at + k] == if k < |s| then s[k] else 0
  {
    forall i | 0 <= i < |s| - k ensures buffer[at + k + i] == s[k..][i] != 0 {
      assert s[k..][i] == s[k + i];
    }
  }

  lemma FindStep(s: Text, chars: Text, wasSpace: bool, k: nat)
    requires k <= |s|
    ensures
      if k == |s| || s[k] in chars || (wasSpace && s[k] == HASH) then Find(s[k..], chars, wasSpace) == 0
      else Find(s[k..], chars, wasSpace) == 1 + Find(s[k + 1..], chars, IsSpace(s[k]))
  {
    if k < |s| {
      assert s[k..][1..] == s[k + 1..];
    }
  }

  /** `ini_rstrip`. */
  method RStrip(buffer: array<Byte>, at: nat, end0: nat, ghost s: Text)
    requires Holds(buffer, at, s) && end0 == at + |s|
    modifies buffer
    ensures Holds(buffer, at, RTrim(s))
    ensures forall i :: 0 <= i < buffer.Length && !(at <= i < end0) ==> buffer[i] == old(buffer[i])
  {
    var end := end0;
    assert s[..|s|] == s;
    while end > at && IsSpace(buffer[end - 1])
      invariant at <= end <= end0 && RTrim(s) == RTrim(s[..end - at])
      invariant Holds(buffer, at, s[..end - at])
      invariant forall i :: 0 <= i < buffer.Length && !(at <= i < end0) ==> buffer[i] == old(buffer[i])
    {
      assert s[..end - at][..end - 1 - at] == s[..end - 1 - at];
      end := end - 1;
      buffer[end] := 0;
    }
  }

  /** `ini_lskip`. */
  method LSkip(buffer: array<Byte>, at: nat, ghost s: Text) returns (p: nat)
    requires Holds(buffer, at, s)
    ensures p == at + Blanks(s) && Holds(buffer, p, LTrim(s))
  {
    hide Holds;
    p := at;
    assert s[0..] == s;
    HoldsTail(buffer, at, s, 0);
    while buffer[p] != 0 && IsSpace(buffer[p])
      invariant at <= p <= at + |s| && p < buffer.Length
      invariant at + Blanks(s) == p + Blanks(s[p - at..])
      invariant buffer[p] == if p - at < |s| then s[p - at] else 0
      decreases at + |s| - p
    {
      assert s[p - at..][1..] == s[p + 1 - at..];
      p := p + 1;
      HoldsTail(buffer, at, s, p - at);
    }
    HoldsTail(buffer, at, s, p - at);
  }

  /** `ini_find_chars_or_comment`. */
  method FindCharsOrComment(buffer: array<Byte>, at: nat, chars: Text, ghost s: Text) returns (p: nat)
    requires Holds(buffer, at, s) && 0 !in chars
    ensures p == at + Find(s, chars, false)
    ensures buffer[p] == 0 <==> p == at + |s|
  {
    hide Find, Holds;
    p := at;
    var wasSpace := false;
    assert s[0..] == s;
    HoldsTail(buffer, at, s, 0);
    while buffer[p] != 0 && buffer[p] !in chars && !(wasSpace && buffer[p] == HASH)
      invariant at <= p <= at + |s| && p < buffer.Length
      invariant p - at + Find(s[p - at..], chars, wasSpace) == Find(s, chars, false)
      invariant buffer[p] == if p - at < |s| then s[p - at] else 0
      decreases at + |s| - p
    {
      FindStep(s, chars, wasSpace, p - at);
      wasSpace := IsSpace(buffer[p]);
      p := p + 1;
      HoldsTail(buffer, at, s, p - at);
    }
    FindStep(s, chars, wasSpace, p - at);
    Nonzero(buffer, at, s, p - at);
  }

  lemma Nonzero(buffer: array<Byte>, at: nat, s: Text, k: nat)
    requires Holds(buffer, at, s) && k <= |s|
    ensures buffer[at + k] == 0 <==> k == |s|
  {
    if k < |s| {
      assert s[k] != 0;
    }
  }

  /** `ini_strncpy0`. */
  method StrNCpy0(dest: array<Byte>, src: array<Byte>, at: nat, size: nat, ghost s: Text)
    requires Holds(src, at, s) && 0 < size <= dest.Length && dest != src
    modifies dest
    ensures Holds(dest, 0, Clip(s, size))
  {
    var i := 0;
    Nonzero(src, at, s, 0);
    while i < size - 1 && src[at + i] != 0
      invariant 0 <= i <= size - 1 && i <= |s| && Holds(src, at, s)
      invariant src[at + i] == 0 <==> i == |s|
      invariant forall k :: 0 <= k < i ==> dest[k] == s[k]
    {
      HoldsTail(src, at, s, i);
      dest[i] := src[at + i];
      i := i + 1;
      Nonzero(src, at, s, i);
    }
    dest[i] := 0;
    assert Clip(s, size) == s[..i];
  }

  /** `fgets`: the bytes taken and a terminator. */
  method Fgets(buffer: array<Byte>, stream: Text, at: nat) returns (n: nat)
    requires at < |stream| && buffer.Length >= 2
    modifies buffer
    ensures n == Taken(stream[at..], buffer.Length - 1) && at + n <= |stream|
    ensures buffer[..n] == stream[at..at + n] && buffer[n] == 0
  {
    n := 0;
    var done := false;
    while !done && n < buffer.Length - 1 && at + n < |stream|
      invariant n <= buffer.Length - 1 && at + n <= |stream| && (done ==> n > 0)
      invariant Taken(stream[at..], buffer.Length - 1) ==
                n + if done then 0 else Taken(stream[at + n..], buffer.Length - 1 - n)
      invariant forall i :: 0 <= i < n ==> buffer[i] == stream[at + i]
      decreases buffer.Length - n, !done
    {
      assert stream[at + n..][1..] == stream[at + n + 1..];
      buffer[n] := stream[at + n];
      done := stream[at + n] == NEWLINE;
      n := n + 1;
    }
    buffer[n] := 0;
  }

  /** `strlen`. */
  method StringLength(buffer: array<Byte>, ghost chunk: Text) returns (n: nat)
    requires |chunk| < buffer.Length && buffer[..|chunk|] == chunk && buffer[|chunk|] == 0
    ensures n == |UpToNul(chunk)| && Holds(buffer, 0, UpToNul(chunk))
  {
    forall i | 0 <= i < |chunk| ensures buffer[i] == chunk[i] {
      assert buffer[i] == buffer[..|chunk|][i];
    }
    n := 0;
    assert chunk[0..] == chunk;
    while buffer[n] != 0
      invariant n <= |chunk| && n + NulAt(chunk[n..]) == NulAt(chunk)
      decreases |chunk| - n
    {
      assert chunk[n..][1..] == chunk[n + 1..];
      n := n + 1;
    }
  }

  lemma ErrorStays(accepts: Handler, st: State, shape: Shape)
    ensures st.error != 0 ==> Obey(accepts, st, shape).error == st.error
  {
  }

  lemma ObeyBlank(accepts: Handler, st: State)
    ensures Obey(accepts, st, Blank) == st
  {
  }

  /** End the string at `p`. */
  method Cut(buffer: array<Byte>, at: nat, p: nat, ghost s: Text)
    requires Holds(buffer, at, s) && at <= p <= at + |s|
    modifies buffer
    ensures Holds(buffer, at, s[..p - at])
    ensures forall i :: 0 <= i < buffer.Length && i != p ==> buffer[i] == old(buffer[i])
  {
    buffer[p] := 0;
  }

  method ReadText(buffer: array<Byte>, at: nat, ghost s: Text) returns (t: Text)
    requires Holds(buffer, at, s)
    ensures t == s
  {
    t := [];
    Nonzero(buffer, at, s, 0);
    while buffer[at + |t|] != 0
      invariant |t| <= |s| && t == s[..|t|]
      invariant buffer[at + |t|] == 0 <==> |t| == |s|
      decreases |s| - |t|
    {
      HoldsTail(buffer, at, s, |t|);
      t := t + [buffer[at + |t|]];
      Nonzero(buffer, at, s, |t|);
    }
  }

  /** The variables of `ini_parse_stream`. */
  class Parser {
    const accepts: Handler
    const line: array<Byte>
    const section: array<Byte>
    const prevName: array<Byte>
    var lineno: nat
    var error: nat
    var calls: seq<Call>
    ghost var state: State

    ghost predicate Valid()
      reads this, section, prevName
    {
      && line.Length == MAX_LINE && section.Length == MAX_SECTION && prevName.Length == MAX_NAME
      && line != section && line != prevName && section != prevName
      && Holds(section, 0, state.section) && Holds(prevName, 0, state.prev)
      && state.line == lineno && state.calls == calls && state.error == error
    }

    constructor (accepts: Handler)
      ensures Valid() && fresh(line) && fresh(section) && fresh(prevName)
      ensures this.accepts == accepts && state == START
    {
      this.accepts := accepts;
      line := new Byte[MAX_LINE];
      section := new Byte[MAX_SECTION](i => 0);
      prevName := new Byte[MAX_NAME](i => 0);
      lineno, error, calls, state := 0, 0, [], START;
    }

    method NoteError()
      requires Valid()
      modifies this`error, this`state
      ensures Valid() && state == Fail(old(state))
    {
      if error == 0 {
        error := lineno;
      }
      state := Fail(state);
    }

    /** HANDLER, and the note of its refusal. */
    method Handle(name: Option<Text>, value: Option<Text>)
      requires Valid()
      modifies this`error, this`calls, this`state
      ensures Valid() && state == Emit(accepts, old(state), name, value)
    {
      var inSection := ReadText(section, 0, state.section);
      var call := Call(inSection, name, value, lineno);
      var ok := accepts(calls, call);
      calls := calls + [call];
      state := state.(calls := calls);
      if !ok {
        NoteError();
      }
    }

    /** A continuation of the previous value. */
    method ContinueValue(start: nat, ghost s: Text)
      requires Valid() && Holds(line, start, s)
      modifies this`error, this`calls, this`state, line
      ensures Valid() && state == Obey(accepts, old(state), Continuation(RTrim(Uncommented(s))))
    {
      var end := FindCharsOrComment(line, start, [], s);
      Cut(line, start, end, s);
      RStrip(line, start, end, s[..end - start]);
      var name := ReadText(prevName, 0, state.prev);
      var value := ReadText(line, start, RTrim(Uncommented(s)));
      Handle(Some(name), Some(value));
    }

    /** A line that starts with '['. */
    method EnterSection(start: nat, ghost s: Text)
      requires Valid() && Holds(line, start, s) && s != [] && s[0] == OPEN
      modifies this`error, this`calls, this`state, line, section, prevName
      ensures Valid()
      ensures var end := 1 + Find(s[1..], [CLOSE], false);
        state == Obey(accepts, old(state), if end < |s| && s[end] == CLOSE then Header(s[1..end]) else Malformed)
    {
      hide Find, Clip;
      HoldsTail(line, start, s, 1);
      var end := FindCharsOrComment(line, start + 1, [CLOSE], s[1..]);
      HoldsTail(line, start, s, end - start);
      if line[end] == CLOSE {
        Cut(line, start + 1, end, s[1..]);
        ghost var name := s[1..end - start];
        assert s[1..][..end - start - 1] == name;
        StrNCpy0(section, line, start + 1, MAX_SECTION, name);
        prevName[0] := 0;
        state := state.(section := Clip(name, MAX_SECTION), prev := []);
        Handle(None, None);
      } else {
        NoteError();
      }
    }

    /** A line that should be a name and a value. */
    method SetValue(start: nat, ghost s: Text)
      requires Valid() && Holds(line, start, s)
      modifies this`error, this`calls, this`state, line, prevName
      ensures Valid()
      ensures var end := Find(s, [EQUALS, COLON], false);
        state == Obey(accepts, old(state),
          if end < |s| && s[end] in [EQUALS, COLON] then
            Pair(RTrim(s[..end]), RTrim(LTrim(Uncommented(s[end + 1..]))))
          else Malformed)
    {
      hide Find, RTrim, LTrim, Uncommented, Clip;
      var end := FindCharsOrComment(line, start, [EQUALS, COLON], s);
      ghost var k := end - start;
      HoldsTail(line, start, s, k);
      if line[end] == EQUALS || line[end] == COLON {
        HoldsTail(line, start, s, k + 1);
        var value, stop, name, text := SplitPair(start, end, s);
        StrNCpy0(prevName, line, start, MAX_NAME, RTrim(s[..k]));
        state := state.(prev := Clip(RTrim(s[..k]), MAX_NAME));
        Handle(Some(name), Some(text));
      } else {
        NoteError();
      }
    }

    /** Cut the line in place into its name and its value. */
    method SplitPair(start: nat, end: nat, ghost s: Text) returns (value: nat, stop: nat, name: Text, text: Text)
      requires line.Length == MAX_LINE
      requires Holds(line, start, s) && start <= end < start + |s| && Holds(line, end + 1, s[end - start + 1..])
      modifies line
      ensures name == RTrim(s[..end - start]) && Holds(line, start, name)
      ensures text == RTrim(LTrim(Uncommented(s[end - start + 1..])))
    {
      hide Find, RTrim, Blanks, IsSpace;
      ghost var left, right := s[..end - start], s[end - start + 1..];
      Cut(line, start, end, s);
      RStrip(line, start, end, left);
      value := end + 1;
      stop := FindCharsOrComment(line, value, [], right);
      Cut(line, value, stop, right);
      value := LSkip(line, value, Uncommented(right));
      RStrip(line, value, stop, LTrim(Uncommented(right)));
      name := ReadText(line, start, RTrim(left));
      text := ReadText(line, value, RTrim(LTrim(Uncommented(right))));
    }

    /** Skip a byte order mark on the first line, then the blanks at both ends. */
    method TrimLine(offset: nat, ghost t: Text) returns (start: nat)
      requires line.Length == MAX_LINE && Holds(line, 0, t) && offset == |t|
      modifies line
      ensures var text := if lineno == 1 && HasBom(t) then t[3..] else t;
        && start == |t| - |text| + Blanks(text)
        && Holds(line, start, RTrim(LTrim(text)))
    {
      start := 0;
      if lineno == 1 && line[0] == 0xEF && line[1] == 0xBB && line[2] == 0xBF {
        start := 3;
      }
      ghost var text := t[start..];
      HoldsTail(line, 0, t, start);
      assert t[0..] == t;
      start := LSkip(line, start, text);
      RStrip(line, start, offset, LTrim(text));
    }

    method PrevGiven() returns (given: bool)
      requires Valid()
      ensures given <==> state.prev != []
    {
      Nonzero(prevName, 0, state.prev, 0);
      given := prevName[0] != 0;
    }

    /** The cases of a trimmed line. */
    method Dispatch(start: nat, ghost s: Text)
      requires Valid() && Holds(line, start, s)
      modifies this`error, this`calls, this`state, line, section, prevName
      ensures Valid() && lineno == old(lineno)
      ensures state == Obey(accepts, old(state), ShapeOfText(s, start > 0, old(state).prev))
    {
      hide Obey, Find, RTrim, IsSpace, LTrim, Uncommented;
      var prevGiven := PrevGiven();
      HoldsTail(line, start, s, 0);
      Nonzero(line, start, s, 0);
      if line[start] == 0 || line[start] == HASH {
        ObeyBlank(accepts, state);
      } else if prevGiven && start > 0 {
        ContinueValue(start, s);
      } else if line[start] == OPEN {
        EnterSection(start, s);
      } else {
        SetValue(start, s);
      }
    }

    /** One line of the file, `offset` bytes long. */
    method ProcessLine(offset: nat, ghost t: Text)
      requires Valid() && Holds(line, 0, t) && offset == |t|
      modifies this`error, this`calls, this`state, line, section, prevName
      ensures Valid()
      ensures state == Obey(accepts, old(state), ShapeOf(t, old(lineno) == 1, old(state).prev))
    {
      hide Obey, ShapeOfText;
      var start := TrimLine(offset, t);
      ghost var text := if lineno == 1 && HasBom(t) then t[3..] else t;
      Dispatch(start, RTrim(LTrim(text)));
    }

    /** Read a chunk of the file, and drop the rest of a line that is too long. */
    method ReadLine(stream: Text, at0: nat) returns (at: nat, offset: nat, ghost t: Text)
      requires Valid() && at0 < |stream|
      modifies this`lineno, this`error, this`state, line
      ensures Valid() && Holds(line, 0, t) && offset == |t|
      ensures var n := Taken(stream[at0..], MAX_LINE - 1);
        && t == UpToNul(stream[at0..][..n])
        && at0 + n <= at <= |stream| && (state.error == 0 ==> at == at0 + n)
        && state == (var next := old(state).(line := old(state).line + 1);
                     if Full(t) && stream[at0..][n..] != [] then Fail(next) else next)
    {
      var n := Fgets(line, stream, at0);
      at := at0 + n;
      ghost var chunk := stream[at0..at];
      assert chunk == stream[at0..][..n] && stream[at0..][n..] == stream[at..];
      offset := StringLength(line, chunk);
      t := UpToNul(chunk);
      lineno := lineno + 1;
      state := state.(line := lineno);
      if offset == MAX_LINE - 1 && line[offset - 1] != NEWLINE {
        assert Full(t);
        at := Discard(stream, at);
      }
    }

    method TakeLine(stream: Text, at0: nat) returns (at: nat)
      requires Valid() && at0 < |stream|
      modifies this`lineno, this`error, this`calls, this`state, line, section, prevName
      ensures Valid() && at0 < at <= |stream|
      ensures state == AfterLine(accepts, old(state), stream[at0..])
      ensures state.error == 0 ==> at == at0 + Taken(stream[at0..], MAX_LINE - 1)
    {
      hide Obey, ShapeOf;
      var offset;
      ghost var t;
      at, offset, t := ReadLine(stream, at0);
      ghost var read := state;
      ProcessLine(offset, t);
      ErrorStays(accepts, read, ShapeOf(t, read.line == 1, read.prev));
    }

    /** Read pieces until one ends the line. */
    method Discard(stream: Text, at0: nat) returns (at: nat)
      requires Valid() && at0 <= |stream|
      modifies this`error, this`state
      ensures Valid() && at0 <= at <= |stream|
      ensures state == if stream[at0..] != [] then Fail(old(state)) else old(state)
      ensures stream[at0..] == [] ==> at == at0
    {
      var abyss := new Byte[ABYSS];
      at := at0;
      while at < |stream|
        invariant at0 <= at <= |stream| && Valid()
        invariant state == if at > at0 then Fail(old(state)) else old(state)
      {
        NoteError();
        var n := Fgets(abyss, stream, at);
        ghost var chunk := stream[at..at + n];
        at := at + n;
        var length := StringLength(abyss, chunk);
        if length > 0 && abyss[length - 1] == NEWLINE {
          break;
        }
      }
    }
  }

  /** `ini_parse_stream`: the line of the first error, or 0, and the calls made. */
  method ParseStream(stream: Text, accepts: Handler) returns (error: nat, calls: seq<Call>)
    ensures error == Run(accepts, START, stream).error
    ensures calls == Run(accepts, START, stream).calls
  {
    hide Run, AfterLine;
    var p := new Parser(accepts);
    var at := 0;
    assert stream[0..] == stream;
    while at < |stream|
      invariant p.Valid() && at <= |stream| && fresh(p) && fresh(p.line) && fresh(p.section) && fresh(p.prevName)
      invariant p.accepts == accepts && p.state.error == 0
      invariant Run(accepts, START, stream) == Run(accepts, p.state, stream[at..])
      decreases |stream| - at
    {
      RunStep(accepts, p.state, stream[at..]);
      ghost var from := at;
      at := p.TakeLine(stream, at);
      if p.error != 0 {
        return p.error, p.calls;
      }
      assert stream[from..][at - from..] == stream[at..];
    }
    RunEnd(accepts, p.state, stream[at..]);
    return p.error, p.calls;
  }

  lemma RunEnd(accepts: Handler, st: State, stream: Text)
    requires stream == []
    ensures Run(accepts, st, stream) == st
  {
  }

  lemma RunStep(accepts: Handler, st: State, stream: Text)
    requires stream != []
    ensures var next := AfterLine(accepts, st, stream);
      Run(accepts, st, stream) == if next.error != 0 then next
          else Run(accepts, next, stream[Taken(stream, MAX_LINE - 1)..])
  {
  }
}
