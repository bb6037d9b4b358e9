/** What the lines of a configuration file mean: comments, continuation lines and section headers. */
module IniLaws {
  import opened Common
  import opened CString
  import opened Ini

  // ----- Comments and separators -----

  /** No '#' right behind a blank. */
  predicate NoComment(s: Text) {
    forall i :: 0 < i < |s| && s[i] == HASH ==> !IsSpace(s[i - 1])
  }

  predicate NoneOf(s: Text, chars: Text) {
    forall i :: 0 <= i < |s| ==> s[i] !in chars
  }

  predicate Clean(s: Text, chars: Text, wasSpace: bool) {
    NoneOf(s, chars) && NoComment(s) && !(wasSpace && s != [] && s[0] == HASH)
  }

  /** The search runs to the end exactly of a text without hits. */
  lemma {:induction false} FindAll(s: Text, chars: Text, wasSpace: bool)
    ensures Find(s, chars, wasSpace) == |s| <==> Clean(s, chars, wasSpace)
  {
    if s != [] {
      FindAll(s[1..], chars, IsSpace(s[0]));
      CleanStep(s, chars, wasSpace);
    }
  }

  lemma CleanStep(s: Text, chars: Text, wasSpace: bool)
    requires s != []
    ensures Clean(s, chars, wasSpace) <==>
      s[0] !in chars && !(wasSpace && s[0] == HASH) && Clean(s[1..], chars, IsSpace(s[0]))
  {
    var t := s[1..];
    assert forall i :: 0 <= i < |t| ==> t[i] == s[i + 1];
    if Clean(t, chars, IsSpace(s[0])) && s[0] !in chars {
      forall i | 0 <= i < |s| ensures s[i] !in chars {
        assert i > 0 ==> t[i - 1] == s[i];
      }
      forall i | 0 < i < |s| && s[i] == HASH ensures !IsSpace(s[i - 1]) {
        assert t[i - 1] == s[i];
        assert i > 1 ==> t[i - 2] == s[i - 1];
      }
    }
    if Clean(s, chars, wasSpace) {
      forall i | 0 < i < |t| && t[i] == HASH ensures !IsSpace(t[i - 1]) {
        assert s[i + 1] == t[i] && s[i] == t[i - 1];
      }
    }
  }

  /** Whether the byte after the text is behind a blank. */
  predicate EndsBlank(s: Text, wasSpace: bool) {
    if s == [] then wasSpace else IsSpace(s[|s| - 1])
  }

  lemma {:induction false} FindPast(a: Text, b: Text, chars: Text, wasSpace: bool)
    requires Clean(a, chars, wasSpace)
    ensures Find(a + b, chars, wasSpace) == |a| + Find(b, chars, EndsBlank(a, wasSpace))
  {
    if a == [] {
      assert a + b == b;
    } else {
      CleanStep(a, chars, wasSpace);
      assert (a + b)[1..] == a[1..] + b;
      FindPast(a[1..], b, chars, IsSpace(a[0]));
    }
  }

  lemma {:induction false} FindCleanPart(s: Text, chars: Text, wasSpace: bool)
    ensures Clean(s[..Find(s, chars, wasSpace)], chars, wasSpace)
  {
    var n := Find(s, chars, wasSpace);
    if n > 0 {
      FindCleanPart(s[1..], chars, IsSpace(s[0]));
      CleanStep(s[..n], chars, wasSpace);
      assert s[..n][1..] == s[1..][..n - 1];
    }
  }

  // ----- Blanks -----

  lemma {:induction false} RTrimBlanks(s: Text, blanks: Text)
    requires AllSpace(blanks)
    ensures RTrim(s + blanks) == RTrim(s)
  {
    if blanks == [] {
      assert s + blanks == s;
    } else {
      var init := blanks[..|blanks| - 1];
      assert (s + blanks)[..|s + blanks| - 1] == s + init;
      RTrimBlanks(s, init);
    }
  }

  /** Trimming the right end does not reach past a text that ends without a blank. */
  lemma {:induction false} RTrimPast(a: Text, b: Text)
    requires RTrim(b) != []
    ensures RTrim(a + b) == a + RTrim(b)
  {
    assert b != [];
    if IsSpace(b[|b| - 1]) {
      assert (a + b)[..|a + b| - 1] == a + b[..|b| - 1];
      RTrimPast(a, b[..|b| - 1]);
    }
  }

  lemma {:induction false} RTrimEnds(s: Text)
    ensures RTrim(s) == [] || !IsSpace(RTrim(s)[|RTrim(s)| - 1])
    ensures s != [] && !IsSpace(s[0]) ==> RTrim(s) != []
  {
    if s != [] && IsSpace(s[|s| - 1]) {
      RTrimEnds(s[..|s| - 1]);
    }
  }

  // ----- Reading one line of a stream -----

  /** A line with its newline that fits the buffer. */
  predicate IsLine(s: Text) {
    && 0 < |s| < MAX_LINE && s[|s| - 1] == NEWLINE
    && forall i :: 0 <= i < |s| - 1 ==> s[i] != NEWLINE && s[i] != 0
  }

  lemma {:induction false} TakesLine(s: Text, rest: Text, room: nat)
    requires 0 < |s| <= room && s[|s| - 1] == NEWLINE
    requires forall i :: 0 <= i < |s| - 1 ==> s[i] != NEWLINE
    ensures Taken(s + rest, room) == |s|
  {
    if |s| > 1 {
      assert (s + rest)[1..] == s[1..] + rest;
      TakesLine(s[1..], rest, room - 1);
    }
  }

  lemma NoNulInside(s: Text)
    requires forall i :: 0 <= i < |s| ==> s[i] != 0
    ensures UpToNul(s) == s
  {
    var n := NulAt(s);
  }

  /** A line of the stream is handled as itself, then the rest. */
  lemma RunLine(accepts: Handler, st: State, line: Text, rest: Text)
    requires IsLine(line)
    ensures var next := DoLine(accepts, st, line, false);
      Run(accepts, st, line + rest) == if next.error != 0 then next else Run(accepts, next, rest)
  {
    TakesLine(line, rest, MAX_LINE - 1);
    assert (line + rest)[..|line|] == line && (line + rest)[|line|..] == rest;
    NoNulInside(line);
    assert !Full(line);
  }

  // ----- Lines that mean nothing -----

  /** A byte order mark in front of the first line. */
  const BOM: Text := [0xEF, 0xBB, 0xBF]

  predicate MayMark(mark: Text, st: State) {
    mark == [] || (mark == BOM && st.line == 0)
  }

  lemma MarkedShape(mark: Text, line: Text, st: State)
    requires MayMark(mark, st) && !HasBom(line)
    ensures ShapeOf(mark + line, st.line + 1 == 1, st.prev) ==
            ShapeOfText(RTrim(LTrim(line)), |mark| + Blanks(line) > 0, st.prev)
  {
    if mark == [] {
      assert mark + line == line;
    } else {
      assert HasBom(mark + line) && (mark + line)[3..] == line;
    }
  }

  lemma LeadTrimmed(lead: Text, text: Text)
    requires AllSpace(lead) && text != [] && !IsSpace(text[0])
    ensures Blanks(lead + text) == |lead| && LTrim(lead + text) == text
    ensures RTrim(text) != [] && RTrim(text)[0] == text[0]
  {
    BlanksOf(lead, text);
    assert (lead + text)[|lead|..] == text;
    RTrimEnds(text);
  }

  lemma {:induction false} RTrimOfBlanks(s: Text)
    requires AllSpace(s)
    ensures RTrim(s) == []
  {
    if s != [] {
      RTrimOfBlanks(s[..|s| - 1]);
    }
  }

  lemma CommentShape(mark: Text, lead: Text, text: Text, st: State)
    requires MayMark(mark, st) && AllSpace(lead)
    ensures ShapeOf(mark + (lead + [HASH] + text), st.line + 1 == 1, st.prev) == Blank
  {
    hide RTrim, Blanks;
    var line := lead + [HASH] + text;
    assert line[0] == HASH || (lead != [] && line[0] == lead[0]);
    hide HasBom;
    MarkedShape(mark, line, st);
    assert line == lead + ([HASH] + text);
    LeadTrimmed(lead, [HASH] + text);
  }

  lemma EmptyShape(mark: Text, blanks: Text, st: State)
    requires MayMark(mark, st) && AllSpace(blanks)
    ensures ShapeOf(mark + blanks, st.line + 1 == 1, st.prev) == Blank
  {
    MarkedShape(mark, blanks, st);
    assert blanks + [] == blanks;
    BlanksOf(blanks, []);
    assert LTrim(blanks) == [];
    RTrimOfBlanks([]);
  }

  /** A line that means nothing only counts. */
  lemma BlankNext(accepts: Handler, st: State, line: Text, rest: Text)
    requires st.error == 0 && IsLine(line) && ShapeOf(line, st.line + 1 == 1, st.prev) == Blank
    ensures Run(accepts, st, line + rest) == Run(accepts, st.(line := st.line + 1), rest)
  {
    hide Run, IsLine, ShapeOf, DoLine;
    BlankDone(accepts, st, line);
    RunLine(accepts, st, line, rest);
  }

  lemma BlankDone(accepts: Handler, st: State, line: Text)
    requires ShapeOf(line, st.line + 1 == 1, st.prev) == Blank
    ensures DoLine(accepts, st, line, false) == st.(line := st.line + 1)
  {
    hide ShapeOf;
  }

  /** A comment line, indented or not, behind a byte order mark or not, only counts as a line: nothing is called,
      no error is noted, and a value may still be continued after it. */
  lemma CommentLine(accepts: Handler, st: State, mark: Text, lead: Text, text: Text, rest: Text)
    requires st.error == 0 && MayMark(mark, st) && AllSpace(lead) && IsLine(mark + (lead + [HASH] + text))
    ensures Run(accepts, st, mark + (lead + [HASH] + text) + rest) == Run(accepts, st.(line := st.line + 1), rest)
  {
    hide Run, IsLine, ShapeOf;
    CommentShape(mark, lead, text, st);
    BlankNext(accepts, st, mark + (lead + [HASH] + text), rest);
  }

  /** So does a line of blanks. */
  lemma EmptyLine(accepts: Handler, st: State, mark: Text, blanks: Text, rest: Text)
    requires st.error == 0 && MayMark(mark, st) && AllSpace(blanks) && IsLine(mark + blanks)
    ensures Run(accepts, st, mark + blanks + rest) == Run(accepts, st.(line := st.line + 1), rest)
  {
    hide Run, IsLine, ShapeOf;
    EmptyShape(mark, blanks, st);
    BlankNext(accepts, st, mark + blanks, rest);
  }

  // ----- Lines that are errors -----

  /** An error ends the parsing on its line. */
  lemma MalformedNext(accepts: Handler, st: State, line: Text, rest: Text)
    requires st.error == 0 && IsLine(line) && ShapeOf(line, st.line + 1 == 1, st.prev) == Malformed
    ensures Run(accepts, st, line + rest).error == st.line + 1 && Run(accepts, st, line + rest).calls == st.calls
  {
    hide Run, IsLine, ShapeOf;
    RunLine(accepts, st, line, rest);
  }

  lemma {:induction false} TakesRoom(text: Text, rest: Text, room: nat)
    requires |text| == room && forall i :: 0 <= i < |text| ==> text[i] != NEWLINE
    ensures Taken(text + rest, room) == room
  {
    if room > 0 {
      assert (text + rest)[1..] == text[1..] + rest;
      TakesRoom(text[1..], rest, room - 1);
    }
  }

  lemma OverlongNext(accepts: Handler, st: State, text: Text, rest: Text)
    requires st.error == 0 && |text| == MAX_LINE - 1 && rest != []
    requires forall i :: 0 <= i < |text| ==> text[i] != 0 && text[i] != NEWLINE
    ensures AfterLine(accepts, st, text + rest).error == st.line + 1
  {
    hide Taken, ShapeOf, Obey, NulAt;
    TakesRoom(text, rest, MAX_LINE - 1);
    var n := MAX_LINE - 1;
    assert (text + rest)[..n] == text && (text + rest)[n..] == rest;
    NoNulInside(text);
    ErrorStays(accepts, Fail(st.(line := st.line + 1)), ShapeOf(text, st.line + 1 == 1, st.prev));
  }

  /** A line that does not fit the buffer is an error on its line, and nothing after it is read. */
  lemma OverlongLine(accepts: Handler, st: State, text: Text, rest: Text)
    requires st.error == 0 && |text| == MAX_LINE - 1 && rest != []
    requires forall i :: 0 <= i < |text| ==> text[i] != 0 && text[i] != NEWLINE
    ensures Run(accepts, st, text + rest).error == st.line + 1
  {
    hide Run, AfterLine;
    OverlongNext(accepts, st, text, rest);
    RunStep(accepts, st, text + rest);
  }

  lemma ErrorStays(accepts: Handler, st: State, shape: Shape)
    requires st.error != 0
    ensures Obey(accepts, st, shape).error == st.error
  {
  }

  lemma NoSignShape(lead: Text, text: Text, prev: Text)
    requires AllSpace(lead) && (lead == [] || prev == [])
    requires text != [] && !IsSpace(text[0]) && text[0] != HASH && text[0] != OPEN && NoneOf(text, [EQUALS, COLON])
    ensures ShapeOf(lead + text, false, prev) == Malformed
  {
    hide RTrim, Blanks, Find;
    LeadTrimmed(lead, text);
    var t := RTrim(text);
    var end := Find(t, [EQUALS, COLON], false);
    assert end < |t| ==> t[end] == text[end];
  }

  /** A line that is no comment, no header and no continuation, and has no separator, is an error, and nothing
      after it is read. */
  lemma LineWithoutSign(accepts: Handler, st: State, lead: Text, text: Text, rest: Text)
    requires st.error == 0 && st.line > 0 && AllSpace(lead) && (lead == [] || st.prev == [])
    requires text != [] && !IsSpace(text[0]) && text[0] != HASH && text[0] != OPEN && NoneOf(text, [EQUALS, COLON])
    requires IsLine(lead + text)
    ensures Run(accepts, st, lead + text + rest).error == st.line + 1
    ensures Run(accepts, st, lead + text + rest).calls == st.calls
  {
    hide Run, IsLine, ShapeOf;
    NoSignShape(lead, text, st.prev);
    MalformedNext(accepts, st, lead + text, rest);
  }

  lemma UnclosedShape(text: Text, prev: Text)
    requires NoneOf(text, [CLOSE])
    ensures ShapeOf([OPEN] + text, false, prev) == Malformed
  {
    var line := [OPEN] + text;
    hide RTrim, Blanks, Find;
    LeadTrimmed([], line);
    assert [] + line == line;
    var t := RTrim(line);
    var end := 1 + Find(t[1..], [CLOSE], false);
    assert end < |t| ==> t[end] == line[end] == text[end - 1];
  }

  /** So is a header that is never closed. */
  lemma UnclosedHeader(accepts: Handler, st: State, text: Text, rest: Text)
    requires st.error == 0 && st.line > 0 && NoneOf(text, [CLOSE]) && IsLine([OPEN] + text)
    ensures Run(accepts, st, [OPEN] + text + rest).error == st.line + 1
    ensures Run(accepts, st, [OPEN] + text + rest).calls == st.calls
  {
    hide Run, IsLine, ShapeOf;
    UnclosedShape(text, st.prev);
    MalformedNext(accepts, st, [OPEN] + text, rest);
  }

  // ----- Continuation lines -----

  /** A name that a line can give to a value, and give again. */
  predicate WellNamed(name: Text) {
    && name != [] && !IsSpace(name[0]) && !IsSpace(name[|name| - 1])
    && name[0] != HASH && name[0] != OPEN
    && Clean(name, [EQUALS, COLON], false)
    && forall i :: 0 <= i < |name| ==> name[i] != 0 && name[i] != NEWLINE
  }

  const ASSIGN: Text := [SPACE, EQUALS, SPACE]

  lemma AssignmentTrimmed(name: Text, text: Text)
    requires WellNamed(name) && RTrim(text) != []
    ensures Blanks(name + ASSIGN + text) == 0
    ensures RTrim(LTrim(name + ASSIGN + text)) == name + ASSIGN + RTrim(text)
  {
    hide RTrim, Clean;
    var line := name + ASSIGN + text;
    assert line[0] == name[0];
    assert LTrim(line) == line;
    RTrimPast(name + ASSIGN, text);
  }

  lemma AssignmentSplit(name: Text, tail: Text)
    requires WellNamed(name)
    ensures Find(name + [SPACE, EQUALS] + tail, [EQUALS, COLON], false) == |name| + 1
    ensures RTrim((name + [SPACE, EQUALS] + tail)[..|name| + 1]) == name
  {
    hide Clean;
    var s := name + [SPACE, EQUALS] + tail;
    var sign := [SPACE, EQUALS] + tail;
    assert s == name + sign;
    FindPast(name, sign, [EQUALS, COLON], false);
    assert sign[0] == SPACE && sign[1..][0] == EQUALS;
    assert Find(sign[1..], [EQUALS, COLON], true) == 0;
    assert s[..|name| + 1] == name + [SPACE];
    RTrimBlanks(name, [SPACE]);
  }

  /** `name = text`: what follows the sign is the value. */
  lemma AssignmentShape(name: Text, text: Text, first: bool, prev: Text)
    requires WellNamed(name) && RTrim(text) != [] && (first ==> !HasBom(name + ASSIGN + text))
    ensures ShapeOf(name + ASSIGN + text, first, prev) == Pair(name, RTrim(LTrim(Uncommented([SPACE] + RTrim(text)))))
  {
    hide Find, RTrim, LTrim, Blanks, Clean, HasBom, Uncommented;
    AssignmentTrimmed(name, text);
    var tail := [SPACE] + RTrim(text);
    var s := name + ASSIGN + RTrim(text);
    assert s == name + [SPACE, EQUALS] + tail;
    AssignmentSplit(name, tail);
    assert s[0] == name[0] && s[|name| + 1] == EQUALS && s[|name| + 2..] == tail;
  }

  lemma SignFound(name: Text, gap: Text, sign: Byte, tail: Text)
    requires WellNamed(name) && AllSpace(gap) && sign in [EQUALS, COLON]
    ensures
      var s, end := name + gap + [sign] + tail, |name| + |gap|;
      && Find(s, [EQUALS, COLON], false) == end && s[end] == sign && s[end + 1..] == tail
      && RTrim(s[..end]) == name
  {
    hide Find, RTrim, Clean;
    var s, end := name + gap + [sign] + tail, |name| + |gap|;
    var rest := [sign] + tail;
    assert s == name + (gap + rest);
    FindPast(name, gap + rest, [EQUALS, COLON], false);
    FindSign(gap, rest, IsSpace(name[|name| - 1]));
    assert s[..end] == name + gap;
    RTrimBlanks(name, gap);
    NameStands(name);
  }

  lemma AssignmentTrims(name: Text, gap: Text, sign: Byte, text: Text)
    requires WellNamed(name) && sign in [EQUALS, COLON]
    ensures
      var line := name + gap + [sign] + text;
      Blanks(line) == 0 && RTrim(LTrim(line)) == name + gap + [sign] + RTrim(text)
  {
    hide Find, RTrim, Clean;
    var line := name + gap + [sign] + text;
    assert line[0] == name[0] && line == [] + line;
    LeadTrimmed([], line);
    SignTrimmed(name + gap, sign, text);
  }

  /** A name and a value around '=' or ':', with or without blanks about the sign. The value is trimmed and ends
      where a comment begins. */
  lemma AssignmentLine(name: Text, gap: Text, sign: Byte, text: Text, first: bool, prev: Text)
    requires WellNamed(name) && AllSpace(gap) && sign in [EQUALS, COLON]
    requires first ==> !HasBom(name + gap + [sign] + text)
    ensures ShapeOf(name + gap + [sign] + text, first, prev) == Pair(name, RTrim(LTrim(Uncommented(RTrim(text)))))
  {
    hide Find, RTrim, LTrim, Blanks, Clean, Uncommented, HasBom;
    AssignmentTrims(name, gap, sign, text);
    SignFound(name, gap, sign, RTrim(text));
    assert (name + gap + [sign] + RTrim(text))[0] == name[0];
  }

  lemma NameStands(name: Text)
    requires WellNamed(name)
    ensures RTrim(name) == name
  {
  }

  lemma SignTrimmed(head: Text, sign: Byte, text: Text)
    requires !IsSpace(sign)
    ensures RTrim(head + [sign] + text) == head + [sign] + RTrim(text)
  {
    if RTrim(text) == [] {
      TrimmedAway(text);
      RTrimBlanks(head + [sign], text);
      assert RTrim(head + [sign]) == head + [sign];
      assert head + [sign] + [] == head + [sign];
    } else {
      RTrimPast(head + [sign], text);
    }
  }

  lemma {:induction false} TrimmedAway(s: Text)
    requires RTrim(s) == []
    ensures AllSpace(s)
  {
    if s != [] {
      TrimmedAway(s[..|s| - 1]);
    }
  }

  lemma {:induction false} FindSign(gap: Text, tail: Text, wasSpace: bool)
    requires AllSpace(gap) && tail != [] && tail[0] in [EQUALS, COLON]
    ensures Find(gap + tail, [EQUALS, COLON], wasSpace) == |gap|
  {
    if gap == [] {
      assert gap + tail == tail;
    } else {
      assert (gap + tail)[1..] == gap[1..] + tail;
      FindSign(gap[1..], tail, true);
    }
  }

  /** What an assignment does: one call with the section, the name, the value and the line. */
  lemma AssignmentRuns(accepts: Handler, st: State, name: Text, gap: Text, sign: Byte, text: Text, rest: Text)
    requires st.error == 0 && st.line > 0 && WellNamed(name) && AllSpace(gap) && sign in [EQUALS, COLON]
    requires IsLine(name + gap + [sign] + text)
    requires accepts(st.calls, Call(st.section, Some(name), Some(RTrim(LTrim(Uncommented(RTrim(text))))), st.line + 1))
    ensures
      var call := Call(st.section, Some(name), Some(RTrim(LTrim(Uncommented(RTrim(text))))), st.line + 1);
      Run(accepts, st, name + gap + [sign] + text + rest) ==
      Run(accepts, st.(line := st.line + 1, calls := st.calls + [call], prev := Clip(name, MAX_NAME)), rest)
  {
    hide WellNamed, IsLine, RTrim, LTrim, Uncommented, ShapeOf;
    AssignmentLine(name, gap, sign, text, false, st.prev);
    RunLine(accepts, st, name + gap + [sign] + text, rest);
  }

  /** A value ends where blanks and a '#' begin a comment. */
  lemma InlineComment(value: Text, blanks: Text, comment: Text)
    requires value != [] && !IsSpace(value[0]) && !IsSpace(value[|value| - 1]) && value[0] != HASH && NoComment(value)
    requires blanks != [] && AllSpace(blanks)
    ensures RTrim(LTrim(Uncommented(value + blanks + [HASH] + comment))) == value
  {
    hide Find, RTrim, LTrim, Blanks, NoComment;
    var tail := blanks + ([HASH] + comment);
    var s := value + blanks + [HASH] + comment;
    assert s == value + tail;
    assert Clean(value, [], false) by { assert NoneOf(value, []); }
    FindPast(value, tail, [], false);
    FindHash(blanks, [HASH] + comment, false);
    assert Uncommented(s) == value + blanks;
    LeadTrimmed([], value + blanks);
    assert [] + (value + blanks) == value + blanks;
    RTrimBlanks(value, blanks);
    ValueStands(value);
  }

  lemma ValueStands(value: Text)
    requires value != [] && !IsSpace(value[|value| - 1])
    ensures RTrim(value) == value
  {
  }

  lemma {:induction false} FindHash(blanks: Text, tail: Text, wasSpace: bool)
    requires AllSpace(blanks) && (blanks != [] || wasSpace) && tail != [] && tail[0] == HASH
    ensures Find(blanks + tail, [], wasSpace) == |blanks|
  {
    if blanks == [] {
      assert blanks + tail == tail;
    } else {
      assert (blanks + tail)[1..] == blanks[1..] + tail;
      FindHash(blanks[1..], tail, true);
    }
  }

  /** Indented text behind a named value. */
  lemma ContinuationShape(lead: Text, text: Text, prev: Text)
    requires lead != [] && AllSpace(lead) && prev != []
    requires text != [] && !IsSpace(text[0]) && text[0] != HASH
    ensures ShapeOf(lead + text, false, prev) == Continuation(RTrim(Uncommented(RTrim(text))))
  {
    BlanksOf(lead, text);
    assert LTrim(lead + text) == text;
    RTrimEnds(text);
    assert RTrim(text)[0] == text[0];
  }

  /** Text that starts with neither a blank nor a '#' is the same value behind one blank. */
  lemma OneBlank(s: Text)
    requires s != [] && !IsSpace(s[0]) && s[0] != HASH
    ensures LTrim(Uncommented([SPACE] + s)) == Uncommented(s)
  {
    var t := [SPACE] + s;
    assert t[1..] == s;
    assert Find(t, [], false) == 1 + Find(s, [], true);
    assert Find(s, [], true) == Find(s, [], false) == 1 + Find(s[1..], [], false);
    var u := Uncommented(s);
    assert Uncommented(t) == [SPACE] + u;
    assert u[0] == s[0];
    BlanksOf([SPACE], u);
    assert ([SPACE] + u)[1..] == u;
  }

  /** An indented line behind a named value is the same as repeating `name = `. */
  lemma ContinuationIsRepetition(accepts: Handler, st: State, lead: Text, text: Text, rest: Text)
    requires WellNamed(st.prev) && |st.prev| < MAX_NAME && st.line > 0
    requires lead != [] && AllSpace(lead) && text != [] && !IsSpace(text[0]) && text[0] != HASH
    requires IsLine(lead + text) && IsLine(st.prev + ASSIGN + text)
    ensures Run(accepts, st, lead + text + rest) == Run(accepts, st, st.prev + ASSIGN + text + rest)
  {
    hide Run, IsLine, Clean, Find, RTrim, LTrim, Blanks, Uncommented, ShapeOf, HasBom;
    RunLine(accepts, st, lead + text, rest);
    RunLine(accepts, st, st.prev + ASSIGN + text, rest);
    ContinuationShape(lead, text, st.prev);
    RTrimEnds(text);
    AssignmentShape(st.prev, text, false, st.prev);
    assert RTrim(text)[0] == text[0];
    OneBlank(RTrim(text));
  }

  // ----- Stored names -----

  predicate OneLine(s: Text) {
    forall i :: 0 <= i < |s| ==> s[i] != 0 && (s[i] == NEWLINE ==> i == |s| - 1)
  }

  lemma {:induction false} TakenIsOneLine(stream: Text, room: nat)
    ensures forall i :: 0 <= i < Taken(stream, room) - 1 ==> stream[i] != NEWLINE
  {
    if stream != [] && room > 0 && stream[0] != NEWLINE {
      TakenIsOneLine(stream[1..], room - 1);
      forall i | 0 <= i < Taken(stream, room) - 1 ensures stream[i] != NEWLINE {
        assert i > 0 ==> stream[i] == stream[1..][i - 1];
      }
    }
  }

  lemma ReadIsOneLine(stream: Text)
    ensures OneLine(UpToNul(stream[..Taken(stream, MAX_LINE - 1)]))
  {
    TakenIsOneLine(stream, MAX_LINE - 1);
    var chunk := stream[..Taken(stream, MAX_LINE - 1)];
    assert forall i :: 0 <= i < |chunk| - 1 ==> chunk[i] == stream[i] != NEWLINE;
  }

  /** A trimmed line has neither blanks at its ends nor a newline. */
  lemma TrimmedLine(text: Text)
    requires OneLine(text)
    ensures var s := RTrim(LTrim(text));
      && (forall i :: 0 <= i < |s| ==> s[i] != 0 && s[i] != NEWLINE)
      && (s != [] ==> !IsSpace(s[0]))
  {
    var t := LTrim(text);
    var s := RTrim(t);
    RTrimEnds(t);
    assert forall i :: 0 <= i < |t| ==> t[i] == text[Blanks(text) + i];
    assert forall i :: 0 <= i < |s| ==> s[i] == t[i];
  }

  lemma ShapeNames(line: Text, first: bool, prev: Text)
    requires OneLine(line) && ShapeOf(line, first, prev).Pair?
    ensures var name := ShapeOf(line, first, prev).name; name == [] || WellNamed(name)
  {
    var text := if first && HasBom(line) then line[3..] else line;
    TrimmedLine(text);
    var s := RTrim(LTrim(text));
    var end := Find(s, [EQUALS, COLON], false);
    NameOf(s, end);
  }

  lemma NameOf(s: Text, end: nat)
    requires s != [] && !IsSpace(s[0]) && s[0] != HASH && s[0] != OPEN
    requires end == Find(s, [EQUALS, COLON], false)
    requires forall i :: 0 <= i < |s| ==> s[i] != 0 && s[i] != NEWLINE
    ensures RTrim(s[..end]) == [] || WellNamed(RTrim(s[..end]))
  {
    hide Find, RTrim, Clean;
    FindCleanPart(s, [EQUALS, COLON], false);
    var name := RTrim(s[..end]);
    RTrimEnds(s[..end]);
    CleanPrefix(s[..end], |name|, [EQUALS, COLON]);
    assert name == s[..end][..|name|] == s[..|name|];
  }

  lemma CleanPrefix(s: Text, n: nat, chars: Text)
    requires n <= |s| && Clean(s, chars, false)
    ensures Clean(s[..n], chars, false)
  {
    assert forall i :: 0 <= i < n ==> s[..n][i] == s[i];
  }

  /** The stored name is empty, cut to the size of its buffer, or can be given again. */
  predicate Stored(name: Text) {
    name == [] || |name| == MAX_NAME - 1 || WellNamed(name)
  }

  lemma {:induction false} StoredNames(accepts: Handler, st: State, stream: Text)
    requires Stored(st.prev)
    ensures Stored(Run(accepts, st, stream).prev)
    ensures Run(accepts, st, stream).line >= st.line
    ensures stream != [] ==> Run(accepts, st, stream).line > st.line
    decreases |stream|
  {
    hide AfterLine, Stored;
    if stream != [] {
      StoredNext(accepts, st, stream);
      var next := AfterLine(accepts, st, stream);
      if next.error == 0 {
        StoredNames(accepts, next, stream[Taken(stream, MAX_LINE - 1)..]);
      }
    }
  }

  lemma StoredNext(accepts: Handler, st: State, stream: Text)
    requires Stored(st.prev)
    ensures Stored(AfterLine(accepts, st, stream).prev) && AfterLine(accepts, st, stream).line == st.line + 1
  {
    hide ShapeOf, Full, UpToNul, WellNamed;
    var line := UpToNul(stream[..Taken(stream, MAX_LINE - 1)]);
    ReadIsOneLine(stream);
    var shape := ShapeOf(line, st.line + 1 == 1, st.prev);
    if shape.Pair? {
      ShapeNames(line, st.line + 1 == 1, st.prev);
    }
  }

  // ----- Files line by line -----

  predicate WholeLines(s: Text) {
    s == [] || s[|s| - 1] == NEWLINE
  }

  lemma {:induction false} TakenOfWhole(head: Text, tail: Text, room: nat)
    requires head != [] && WholeLines(head)
    ensures Taken(head + tail, room) == Taken(head, room)
    ensures Taken(head, room) == |head| ==> head[Taken(head, room) - 1] == NEWLINE
  {
    assert (head + tail)[0] == head[0] && (head + tail)[1..] == head[1..] + tail;
    if room > 0 && head[0] != NEWLINE {
      TakenOfWhole(head[1..], tail, room - 1);
    }
  }

  /** Whole lines are read the same whatever follows them. */
  lemma {:induction false} RunAppend(accepts: Handler, st: State, head: Text, tail: Text)
    requires WholeLines(head)
    ensures var m := Run(accepts, st, head);
      Run(accepts, st, head + tail) == if head != [] && m.error != 0 then m else Run(accepts, m, tail)
    decreases |head|
  {
    if head == [] {
      assert head + tail == tail;
    } else {
      TakenOfWhole(head, tail, MAX_LINE - 1);
      var n := Taken(head, MAX_LINE - 1);
      assert (head + tail)[..n] == head[..n] && (head + tail)[n..] == head[n..] + tail;
      SameFirstLine(accepts, st, head, tail);
      var next := AfterLine(accepts, st, head);
      if next.error == 0 {
        RunAppend(accepts, next, head[n..], tail);
      }
    }
  }

  lemma SameFirstLine(accepts: Handler, st: State, head: Text, tail: Text)
    requires head != [] && WholeLines(head)
    ensures AfterLine(accepts, st, head + tail) == AfterLine(accepts, st, head)
  {
    TakenOfWhole(head, tail, MAX_LINE - 1);
    var n := Taken(head, MAX_LINE - 1);
    assert (head + tail)[..n] == head[..n] && (head + tail)[n..] == head[n..] + tail;
    var line := UpToNul(head[..n]);
    if n == |head| && |line| == n {
      assert !Full(line);
    }
  }

  /** Anywhere in a file, replacing an indented continuation by a repeated `name = ` line leaves
      everything as it was: the calls, their line numbers and all that follows. The name must be
      shorter than its buffer, so that it was not cut. */
  lemma ContinuationInFile(accepts: Handler, head: Text, lead: Text, text: Text, rest: Text)
    requires WholeLines(head)
    requires var m := Run(accepts, START, head);
      && m.error == 0 && m.prev != [] && |m.prev| < MAX_NAME - 1
      && IsLine(m.prev + ASSIGN + text)
    requires lead != [] && AllSpace(lead) && text != [] && !IsSpace(text[0]) && text[0] != HASH
    requires IsLine(lead + text)
    ensures var m := Run(accepts, START, head);
      Run(accepts, START, head + (lead + text + rest)) == Run(accepts, START, head + (m.prev + ASSIGN + text + rest))
  {
    hide Run, IsLine, WellNamed;
    var m := Run(accepts, START, head);
    StoredNames(accepts, START, head);
    if head == [] {
      RunEnd(accepts, START, head);
    }
    RunAppend(accepts, START, head, lead + text + rest);
    RunAppend(accepts, START, head, m.prev + ASSIGN + text + rest);
    ContinuationIsRepetition(accepts, m, lead, text, rest);
  }

  // ----- Section headers -----

  /** What the configuration reader applies: it ignores sections and the calls for their headers. */
  datatype Setting = Setting(name: Text, value: Text, line: nat)

  function SettingOf(c: Call): Setting
    requires c.name.Some?
  {
    Setting(c.name.value, if c.value.Some? then c.value.value else [], c.line)
  }

  function Settings(calls: seq<Call>): seq<Setting> {
    if calls == [] then []
    else
      var last := calls[|calls| - 1];
      Settings(calls[..|calls| - 1]) + if last.name.Some? then [SettingOf(last)] else []
  }

  lemma SettingsAppend(calls: seq<Call>, c: Call)
    ensures Settings(calls + [c]) == Settings(calls) + if c.name.Some? then [SettingOf(c)] else []
  {
    assert (calls + [c])[..|calls|] == calls;
  }

  type Reader = (seq<Setting>, Setting) -> bool

  function Reading(reader: Reader): Handler {
    (calls, c: Call) => c.name.None? || reader(Settings(calls), SettingOf(c))
  }

  /** States that differ at most in the section and the header calls. */
  predicate Alike(a: State, b: State) {
    a.prev == b.prev && a.line == b.line && a.error == b.error && Settings(a.calls) == Settings(b.calls)
  }

  lemma EmitAlike(reader: Reader, a: State, b: State, name: Option<Text>, value: Option<Text>)
    requires Alike(a, b)
    ensures Alike(Emit(Reading(reader), a, name, value), Emit(Reading(reader), b, name, value))
  {
    hide Settings;
    var c, d := Call(a.section, name, value, a.line), Call(b.section, name, value, b.line);
    SettingsAppend(a.calls, c);
    SettingsAppend(b.calls, d);
    assert c.name.Some? ==> SettingOf(c) == SettingOf(d);
    assert Reading(reader)(a.calls, c) == Reading(reader)(b.calls, d);
  }

  lemma ObeyAlike(reader: Reader, a: State, b: State, shape: Shape)
    requires Alike(a, b)
    ensures Alike(Obey(Reading(reader), a, shape), Obey(Reading(reader), b, shape))
  {
    hide Emit, Settings;
    match shape
    case Blank =>
    case Continuation(text) =>
      EmitAlike(reader, a, b, Some(a.prev), Some(text));
    case Header(section) =>
      EmitAlike(reader, a.(section := Clip(section, MAX_SECTION), prev := []),
          b.(section := Clip(section, MAX_SECTION), prev := []), None, None);
    case Pair(name, text) =>
      EmitAlike(reader, a.(prev := Clip(name, MAX_NAME)), b.(prev := Clip(name, MAX_NAME)), Some(name), Some(text));
    case Malformed =>
  }

  lemma LineAlike(reader: Reader, a: State, b: State, line: Text, tooLong: bool)
    requires Alike(a, b)
    ensures Alike(DoLine(Reading(reader), a, line, tooLong), DoLine(Reading(reader), b, line, tooLong))
  {
    hide Obey, ShapeOf, Settings;
    var x, y := a.(line := a.line + 1), b.(line := b.line + 1);
    var u, v := if tooLong then Fail(x) else x, if tooLong then Fail(y) else y;
    ObeyAlike(reader, u, v, ShapeOf(line, u.line == 1, a.prev));
  }

  lemma {:induction false} RunAlike(reader: Reader, a: State, b: State, stream: Text)
    requires Alike(a, b)
    ensures Alike(Run(Reading(reader), a, stream), Run(Reading(reader), b, stream))
    decreases |stream|
  {
    if stream != [] {
      hide DoLine, UpToNul, Full, Alike;
      var n := Taken(stream, MAX_LINE - 1);
      var line := UpToNul(stream[..n]);
      LineAlike(reader, a, b, line, Full(line) && stream[n..] != []);
      var x, y := AfterLine(Reading(reader), a, stream), AfterLine(Reading(reader), b, stream);
      AlikeErrors(x, y);
      if x.error == 0 {
        RunAlike(reader, x, y, stream[n..]);
      }
    }
  }

  lemma AlikeErrors(a: State, b: State)
    requires Alike(a, b)
    ensures a.error == b.error
  {
  }

  lemma HeaderShape(section: Text, first: bool)
    requires Clean(section, [CLOSE], false)
    ensures ShapeOf([OPEN] + section + [CLOSE, NEWLINE], first, []) == Header(section)
  {
    var line := [OPEN] + section + [CLOSE, NEWLINE];
    assert LTrim(line) == line;
    var s := [OPEN] + section + [CLOSE];
    assert line == s + [NEWLINE];
    RTrimBlanks(s, [NEWLINE]);
    assert RTrim(s) == s;
    assert s[1..] == section + [CLOSE];
    FindPast(section, [CLOSE], [CLOSE], false);
    assert s[1..|section| + 1] == section;
  }

  lemma HeaderNext(reader: Reader, st: State, section: Text)
    requires Clean(section, [CLOSE], false) && st.error == 0
    ensures var next := DoLine(Reading(reader), st, [OPEN] + section + [CLOSE, NEWLINE], false);
      next.error == 0 && Alike(next, st.(prev := [], line := st.line + 1))
  {
    hide Settings;
    var line := [OPEN] + section + [CLOSE, NEWLINE];
    HeaderShape(section, st.line + 1 == 1);
    assert line[0] == OPEN && Blanks(line) == 0;
    assert ShapeOf(line, st.line + 1 == 1, st.prev) == ShapeOf(line, st.line + 1 == 1, []);
    SettingsAppend(st.calls, Call(Clip(section, MAX_SECTION), None, None, st.line + 1));
  }

  /** A section header changes nothing that is applied; it only ends the continuation of a value. */
  lemma HeaderEndsContinuation(reader: Reader, st: State, section: Text, rest: Text)
    requires IsLine([OPEN] + section + [CLOSE, NEWLINE]) && Clean(section, [CLOSE], false) && st.error == 0
    ensures Alike(Run(Reading(reader), st, [OPEN] + section + [CLOSE, NEWLINE] + rest),
                  Run(Reading(reader), st.(prev := [], line := st.line + 1), rest))
  {
    hide DoLine, Alike, Clean;
    var line := [OPEN] + section + [CLOSE, NEWLINE];
    RunLine(Reading(reader), st, line, rest);
    HeaderNext(reader, st, section);
    RunAlike(reader, DoLine(Reading(reader), st, line, false), st.(prev := [], line := st.line + 1), rest);
  }

  // ----- Sizes -----

  /** A value fits a buffer of the size of the line buffer. */
  predicate Fits(c: Call) {
    c.value.Some? ==> |c.value.value| < MAX_LINE
  }

  lemma ShapeFits(line: Text, first: bool, prev: Text)
    ensures var shape := ShapeOf(line, first, prev);
      (shape.Continuation? || shape.Pair?) ==> |shape.text| <= |line|
  {
  }

  lemma NextFits(accepts: Handler, st: State, stream: Text)
    requires forall c :: c in st.calls ==> Fits(c)
    ensures forall c :: c in AfterLine(accepts, st, stream).calls ==> Fits(c)
  {
    hide ShapeOf, UpToNul, Full;
    var line := UpToNul(stream[..Taken(stream, MAX_LINE - 1)]);
    assert |line| < MAX_LINE by {
      ShortLine(stream);
    }
    ShapeFits(line, st.line + 1 == 1, st.prev);
  }

  lemma ShortLine(stream: Text)
    ensures |UpToNul(stream[..Taken(stream, MAX_LINE - 1)])| < MAX_LINE
  {
  }

  /** Every value handed over fits the buffer that the configuration reader copies it to. */
  lemma {:induction false} ValuesFit(accepts: Handler, st: State, stream: Text)
    requires forall c :: c in st.calls ==> Fits(c)
    ensures forall c :: c in Run(accepts, st, stream).calls ==> Fits(c)
    decreases |stream|
  {
    hide AfterLine, Fits;
    if stream != [] {
      NextFits(accepts, st, stream);
      var next := AfterLine(accepts, st, stream);
      if next.error == 0 {
        ValuesFit(accepts, next, stream[Taken(stream, MAX_LINE - 1)..]);
      }
    }
  }
}
