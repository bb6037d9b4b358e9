/** Settings in a configuration file: `read_config_entry` of parse_configfile.c on top of the parser. */
module ConfigFile {
  import opened Common
  import opened CString
  import opened Ini
  import opened IniLaws
  import ParserStorage

  const QUOTE: Byte := 34
  const APOSTROPHE: Byte := 39

  const FALSE: Text := [102, 97, 108, 115, 101]
  const TRUE_SPELLINGS: seq<Text> := [[116, 114, 117, 101], [121, 101, 115], [111, 110], [121], [49]]
  const FALSE_SPELLINGS: seq<Text> := [FALSE, [110, 111], [111, 102, 102], [110], [48]]
  const CLI_ONLY: seq<Text> := [
    [104, 101, 108, 112], [117, 115, 97, 103, 101],
    [118, 101, 114, 115, 105, 111, 110], [99, 111, 110, 102, 105, 103]]

  const KEY_ARG := 0
  const COMPARE_KEY := 99
  const DRY_RUN_KEY := 110

  // ----- Quotes -----

  /** One pair of outer quotes is removed; a value that opens a quote must close it. */
  function Unquote(value: Text): Option<Text> {
    if value == [] || value[0] !in {QUOTE, APOSTROPHE} then Some(value)
    else if |value| < 2 || value[|value| - 1] != value[0] then None
    else Some(value[1..|value| - 1])
  }

  function Quoted(value: Text): Text {
    [QUOTE] + value + [QUOTE]
  }

  /** A quoted value behind the sign comes back whole exactly when nothing in it looks like a comment. */
  lemma QuotedValue(value: Text)
    ensures var x := RTrim(LTrim(Uncommented([SPACE] + Quoted(value))));
      && (NoComment(value) ==> x == Quoted(value))
      && (Unquote(x) == Some(value) <==> NoComment(value))
  {
    hide Find, RTrim, LTrim, Uncommented, NoComment, Unquote;
    var q := Quoted(value);
    OneBlank(q);
    CommentCuts(q);
    CommentInside(value);
    UnquoteQuoted(value);
    assert RTrim(q) == q by {
      RTrimEnds([QUOTE]);
      RTrimPast([QUOTE] + value, [QUOTE]);
    }
    if !NoComment(value) {
      UnquoteShorter(RTrim(Uncommented(q)), value);
    }
  }

  lemma CommentCuts(s: Text)
    ensures NoComment(s) ==> Uncommented(s) == s
    ensures !NoComment(s) ==> |RTrim(Uncommented(s))| < |s| && RTrim(Uncommented(s)) <= s
  {
    FindAll(s, [], false);
  }

  lemma UnquoteQuoted(value: Text)
    ensures Unquote(Quoted(value)) == Some(value)
  {
    assert Quoted(value)[1..|value| + 1] == value;
  }

  lemma UnquoteShorter(x: Text, value: Text)
    requires |x| < |value| + 2 && value != [] && (x == [] || x[0] == QUOTE)
    ensures Unquote(x) != Some(value)
  {
  }

  lemma CommentInside(value: Text)
    ensures NoComment(Quoted(value)) <==> NoComment(value)
    ensures value == [] ==> NoComment(value)
  {
    var q := Quoted(value);
    if NoComment(q) {
      forall i | 0 < i < |value| && value[i] == HASH ensures !IsSpace(value[i - 1]) {
        assert q[i + 1] == value[i] && q[i] == value[i - 1];
      }
    }
    if NoComment(value) {
      forall i | 0 < i < |q| && q[i] == HASH ensures !IsSpace(q[i - 1]) {
        assert i > 1 ==> q[i] == value[i - 1] && q[i - 1] == value[i - 2];
      }
    }
  }

  // ----- Printing and reading -----

  datatype Entry = Entry(name: Text, value: Text)

  function LineOf(e: Entry): Text {
    e.name + ASSIGN + (Quoted(e.value) + [NEWLINE])
  }

  function Printed(entries: seq<Entry>): Text {
    if entries == [] then [] else LineOf(entries[0]) + Printed(entries[1..])
  }

  /** A legal name, and a value that stays on its line. */
  predicate Printable(e: Entry) {
    && WellNamed(e.name) && |LineOf(e)| < MAX_LINE
    && forall i :: 0 <= i < |e.value| ==> e.value[i] != 0 && e.value[i] != NEWLINE
  }

  lemma PrintedIsLine(e: Entry)
    requires Printable(e)
    ensures IsLine(LineOf(e))
  {
    var line := LineOf(e);
    var text := Quoted(e.value) + [NEWLINE];
    forall i | 0 <= i < |line| - 1 ensures line[i] != NEWLINE && line[i] != 0 {
      if i < |e.name| {
        assert line[i] == e.name[i];
      } else if i < |e.name| + 3 {
        assert line[i] == ASSIGN[i - |e.name|];
      } else {
        var k := i - |e.name| - 3;
        assert line[i] == text[k];
        assert 0 < k <= |e.value| ==> text[k] == e.value[k - 1];
      }
    }
  }

  /** The value that the parser finds on a printed line. */
  function Found(e: Entry): Text {
    RTrim(LTrim(Uncommented([SPACE] + Quoted(e.value))))
  }

  lemma PrintedShape(e: Entry, first: bool, prev: Text)
    requires Printable(e) && (first ==> !HasBom(LineOf(e)))
    ensures ShapeOf(LineOf(e), first, prev) == Pair(e.name, Found(e))
  {
    var q := Quoted(e.value);
    RTrimBlanks(q, [NEWLINE]);
    assert RTrim(q) == q;
    AssignmentShape(e.name, q + [NEWLINE], first, prev);
  }

  /** The calls that printed entries should cause, from a given line on. */
  function Expected(entries: seq<Entry>, section: Text, line: nat): seq<Call> {
    if entries == [] then []
    else
      [Call(section, Some(entries[0].name), Some(Found(entries[0])), line)]
      + Expected(entries[1..], section, line + 1)
  }

  predicate Welcome(accepts: Handler, calls: seq<Call>, expected: seq<Call>)
    decreases |expected|
  {
    expected == [] || (accepts(calls, expected[0]) && Welcome(accepts, calls + [expected[0]], expected[1..]))
  }

  lemma {:induction false} PrintedRuns(accepts: Handler, st: State, entries: seq<Entry>)
    requires st.error == 0 && forall e :: e in entries ==> Printable(e)
    requires st.line == 0 && entries != [] ==> !HasBom(LineOf(entries[0]))
    requires Welcome(accepts, st.calls, Expected(entries, st.section, st.line + 1))
    ensures var end := Run(accepts, st, Printed(entries));
      && end.error == 0 && end.line == st.line + |entries|
      && end.calls == st.calls + Expected(entries, st.section, st.line + 1)
    decreases |entries|
  {
    hide HasBom, Found, Run, Printable, LineOf, Expected, Welcome, Printed;
    if entries == [] {
      NothingExpected(entries, st.section, st.line + 1);
      RunEnd(accepts, st, Printed(entries));
      assert st.calls + [] == st.calls;
    } else {
      var e, rest := entries[0], entries[1..];
      var call := ExpectFirst(accepts, st.calls, entries, st.section, st.line + 1);
      var next := PrintedLine(accepts, st, e, Printed(rest));
      PrintedRuns(accepts, next, rest);
      var more := Expected(rest, st.section, st.line + 2);
      assert st.calls + ([call] + more) == (st.calls + [call]) + more;
    }
  }

  lemma NothingExpected(entries: seq<Entry>, section: Text, line: nat)
    requires entries == []
    ensures Expected(entries, section, line) == [] && Printed(entries) == []
  {
  }

  lemma ExpectFirst(accepts: Handler, calls: seq<Call>, entries: seq<Entry>, section: Text, line: nat)
    returns (call: Call)
    requires entries != [] && Welcome(accepts, calls, Expected(entries, section, line))
    ensures call == Call(section, Some(entries[0].name), Some(Found(entries[0])), line) && accepts(calls, call)
    ensures Expected(entries, section, line) == [call] + Expected(entries[1..], section, line + 1)
    ensures Welcome(accepts, calls + [call], Expected(entries[1..], section, line + 1))
    ensures Printed(entries) == LineOf(entries[0]) + Printed(entries[1..])
  {
    hide Found, LineOf;
    call := Call(section, Some(entries[0].name), Some(Found(entries[0])), line);
    assert Expected(entries, section, line)[1..] == Expected(entries[1..], section, line + 1);
  }

  lemma PrintedLine(accepts: Handler, st: State, e: Entry, rest: Text) returns (next: State)
    requires st.error == 0 && Printable(e) && (st.line == 0 ==> !HasBom(LineOf(e)))
    requires accepts(st.calls, Call(st.section, Some(e.name), Some(Found(e)), st.line + 1))
    ensures next.error == 0 && next.line == st.line + 1 && next.section == st.section
    ensures next.calls == st.calls + [Call(st.section, Some(e.name), Some(Found(e)), st.line + 1)]
    ensures Run(accepts, st, LineOf(e) + rest) == Run(accepts, next, rest)
  {
    hide HasBom, Found, Run, Printable, LineOf, ShapeOf, IsLine;
    PrintedIsLine(e);
    PrintedShape(e, st.line + 1 == 1, st.prev);
    RunLine(accepts, st, LineOf(e), rest);
    next := DoLine(accepts, st, LineOf(e), false);
  }

  lemma {:induction false} ExpectedAt(entries: seq<Entry>, section: Text, line: nat, i: nat)
    requires i < |entries|
    ensures |Expected(entries, section, line)| == |entries|
    ensures Expected(entries, section, line)[i] ==
              Call(section, Some(entries[i].name), Some(Found(entries[i])), line + i)
  {
    if i > 0 {
      ExpectedAt(entries[1..], section, line + 1, i - 1);
    } else if |entries| > 1 {
      ExpectedAt(entries[1..], section, line + 1, 0);
    }
  }

  /** Parsing what was printed from a list of settings, at the start of a file or further on, makes one
      call for each, in order, with its name and line number; stripping the quotes gives its value back
      exactly when the value has no '#' behind a blank. */
  lemma RoundTrip(accepts: Handler, st: State, entries: seq<Entry>, i: nat)
    requires st.error == 0 && forall e :: e in entries ==> Printable(e)
    requires i < |entries| && (st.line == 0 ==> !HasBom(LineOf(entries[0])))
    requires Welcome(accepts, st.calls, Expected(entries, st.section, st.line + 1))
    ensures var end := Run(accepts, st, Printed(entries));
      && end.error == 0 && end.line == st.line + |entries| && |end.calls| == |st.calls| + |entries|
      && end.calls[..|st.calls|] == st.calls
      && end.calls[|st.calls| + i] == Call(st.section, Some(entries[i].name), Some(Found(entries[i])), st.line + i + 1)
    ensures Unquote(Found(entries[i])) == Some(entries[i].value) <==> NoComment(entries[i].value)
  {
    hide Run, Printed, Printable, HasBom, LineOf, Welcome, Found;
    PrintedRuns(accepts, st, entries);
    ExpectedAt(entries, st.section, st.line + 1, i);
    FoundValue(entries[i]);
  }

  lemma FoundValue(e: Entry)
    ensures Unquote(Found(e)) == Some(e.value) <==> NoComment(e.value)
  {
    hide Find, RTrim, LTrim, Uncommented, NoComment, Unquote, Quoted;
    QuotedValue(e.value);
  }

  // ----- Applying one entry -----

  type Opt = ParserStorage.Opt

  /** `Apply` is the call of parse_opt; `compare` says that the comparison mode is switched on. */
  datatype Outcome = Ignored | Rejected | Apply(key: int, argument: Option<Text>, compare: bool)

  predicate Spells(value: Text, spellings: seq<Text>) {
    exists i :: 0 <= i < |spellings| && StrCaseCmp(value, spellings[i]) == 0
  }

  /** Flags take a truth value, except compare; dry-run takes one or a mode. */
  predicate TakesTruth(base: Opt) {
    (!base.arg && base.key != COMPARE_KEY) || base.key == DRY_RUN_KEY
  }

  function Resolve(base: Opt, value: Text): Outcome {
    if TakesTruth(base) && Spells(value, FALSE_SPELLINGS) then Apply(base.key, Some(FALSE), false)
    else if TakesTruth(base) && Spells(value, TRUE_SPELLINGS) then Apply(base.key, None, false)
    else if TakesTruth(base) && base.key != DRY_RUN_KEY then Rejected
    else if base.key != COMPARE_KEY then Apply(base.key, Some(value), false)
    else if value == [] then Rejected
    else Apply(KEY_ARG, Some(value), true)
  }

  /** The first option of this name, from `i` on. */
  function IndexOf(opts: seq<Opt>, name: Text, i: nat): (k: nat)
    requires i <= |opts|
    ensures i <= k <= |opts| && (k < |opts| ==> opts[k].name == Some(name))
    decreases |opts| - i
  {
    if i == |opts| || opts[i].name == Some(name) then i else IndexOf(opts, name, i + 1)
  }

  function Interpret(opts: seq<Opt>, name: Option<Text>, value: Text): Outcome {
    if name == None then Ignored
    else if name.value in CLI_ONLY then Rejected
    else
      var k := IndexOf(opts, name.value, 0);
      if k == |opts| || Unquote(value) == None then Rejected
      else Resolve(opts[ParserStorage.RealAt(opts, k)], Unquote(value).value)
  }

  /** Copy the value without its quotes into the buffer. */
  method CopyUnquoted(value: Text, buffer: array<Byte>) returns (length: Option<nat>)
    requires |value| < buffer.Length
    modifies buffer
    ensures length.Some? <==> Unquote(value).Some?
    ensures length.Some? ==> length.value < buffer.Length && buffer[length.value] == 0
    ensures length.Some? ==> buffer[..length.value] == Unquote(value).value
  {
    var from, count := 0, |value|;
    if count > 0 && value[0] in {QUOTE, APOSTROPHE} {
      if count < 2 || value[count - 1] != value[0] {
        return None;
      }
      from, count := 1, count - 2;
    }
    for i := 0 to count
      invariant buffer[..i] == value[from..from + i]
    {
      buffer[i] := value[from + i];
    }
    buffer[count] := 0;
    return Some(count);
  }

  /** `read_config_entry`. The first entry of the option table is not an alias. */
  method ReadConfigEntry(opts: seq<Opt>, name: Option<Text>, value: Text) returns (r: Outcome, hasEntries: bool)
    requires |value| < MAX_LINE && (opts != [] ==> !opts[0].alias)
    ensures r == Interpret(opts, name, value)
    ensures hasEntries <==> name.Some? && name.value !in CLI_ONLY && IndexOf(opts, name.value, 0) < |opts|
  {
    hide Resolve;
    hasEntries := false;
    if name == None {
      return Ignored, false;
    }
    if name.value in CLI_ONLY {
      return Rejected, false;
    }
    var i, option := 0, 0;
    while i < |opts|
      invariant 0 <= i <= |opts| && IndexOf(opts, name.value, i) == IndexOf(opts, name.value, 0)
      invariant option == if i == 0 then 0 else ParserStorage.RealAt(opts, i - 1)
    {
      if !opts[i].alias {
        option := i;
      }
      if opts[i].name == Some(name.value) {
        hasEntries := true;
        var buffer := new Byte[MAX_LINE];
        var length := CopyUnquoted(value, buffer);
        if length == None {
          return Rejected, true;
        }
        r := ApplyValue(opts[option], buffer[..length.value]);
        return;
      }
      i := i + 1;
    }
    return Rejected, false;
  }

  /** Interpret the prepared value and choose the handler's key. */
  method ApplyValue(option: Opt, text: Text) returns (r: Outcome)
    ensures r == Resolve(option, text)
  {
    var argument, key, compare := Some(text), option.key, false;
    if (!option.arg && option.key != COMPARE_KEY) || option.key == DRY_RUN_KEY {
      if Spells(text, FALSE_SPELLINGS) {
        argument := Some(FALSE);
      } else if Spells(text, TRUE_SPELLINGS) {
        argument := None;
      } else if option.key != DRY_RUN_KEY {
        return Rejected;
      }
    }
    if key == COMPARE_KEY {
      if argument == Some([]) {
        return Rejected;
      }
      compare, key := true, KEY_ARG;
    }
    return Apply(key, argument, compare);
  }

  /** Quoted and unquoted spellings of a value mean the same. */
  lemma QuotingIsNeutral(opts: seq<Opt>, name: Option<Text>, value: Text)
    requires value == [] || value[0] !in {QUOTE, APOSTROPHE}
    ensures Interpret(opts, name, Quoted(value)) == Interpret(opts, name, value)
  {
    UnquoteQuoted(value);
  }

  /** The case of a truth value does not matter; a dry-run mode that is none keeps its case. */
  lemma CaseIsNeutral(base: Opt, a: Text, b: Text)
    requires TakesTruth(base)
    requires base.key == DRY_RUN_KEY ==> Spells(a, FALSE_SPELLINGS) || Spells(a, TRUE_SPELLINGS)
    requires IsCString(a) && IsCString(b) && Folded(a) == Folded(b)
    ensures Resolve(base, a) == Resolve(base, b)
  {
    SameSpelling(a, b, FALSE_SPELLINGS);
    SameSpelling(a, b, TRUE_SPELLINGS);
  }

  function Ascii(s: string): seq<int> {
    seq(|s|, i requires 0 <= i < |s| => s[i] as int)
  }

  predicate SaysTrue(value: Text) {
    var v := Folded(value);
    v == Ascii("true") || v == Ascii("yes") || v == Ascii("on") || v == Ascii("y") || v == Ascii("1")
  }

  predicate SaysFalse(value: Text) {
    var v := Folded(value);
    v == Ascii("false") || v == Ascii("no") || v == Ascii("off") || v == Ascii("n") || v == Ascii("0")
  }

  lemma SpelledOut()
    ensures Ascii("true") == Folded(TRUE_SPELLINGS[0]) && Ascii("yes") == Folded(TRUE_SPELLINGS[1])
    ensures Ascii("on") == Folded(TRUE_SPELLINGS[2]) && Ascii("y") == Folded(TRUE_SPELLINGS[3])
    ensures Ascii("1") == Folded(TRUE_SPELLINGS[4])
    ensures Ascii("false") == Folded(FALSE_SPELLINGS[0]) && Ascii("no") == Folded(FALSE_SPELLINGS[1])
    ensures Ascii("off") == Folded(FALSE_SPELLINGS[2]) && Ascii("n") == Folded(FALSE_SPELLINGS[3])
    ensures Ascii("0") == Folded(FALSE_SPELLINGS[4])
  {
  }

  lemma SpellsByFolding(value: Text, spellings: seq<Text>)
    requires IsCString(value) && forall i :: 0 <= i < |spellings| ==> IsCString(spellings[i])
    ensures Spells(value, spellings) <==> exists i :: 0 <= i < |spellings| && Folded(value) == Folded(spellings[i])
  {
    forall i | 0 <= i < |spellings|
      ensures StrCaseCmp(value, spellings[i]) == 0 <==> Folded(value) == Folded(spellings[i])
    {
      SameFolded(value, spellings[i]);
    }
  }

  lemma TruthSpelled(value: Text)
    requires IsCString(value)
    ensures Spells(value, TRUE_SPELLINGS) <==> SaysTrue(value)
    ensures Spells(value, FALSE_SPELLINGS) <==> SaysFalse(value)
  {
    SpelledOut();
    SpellsByFolding(value, TRUE_SPELLINGS);
    SpellsByFolding(value, FALSE_SPELLINGS);
    hide Folded, Ascii, Spells;
  }

  /** Some options exist on the command line only. */
  lemma CommandLineOnly(opts: seq<Opt>, name: Text, value: Text)
    requires name == Ascii("help") || name == Ascii("usage") || name == Ascii("version") || name == Ascii("config")
    ensures Interpret(opts, Some(name), value) == Rejected
  {
    assert Ascii("help") == CLI_ONLY[0] && Ascii("usage") == CLI_ONLY[1];
    assert Ascii("version") == CLI_ONLY[2] && Ascii("config") == CLI_ONLY[3];
  }

  /** Either kind of quotes is taken off; a quote that is opened and not closed by the same one is refused. */
  lemma EitherQuote(quote: Byte, value: Text)
    requires quote in {34, 39}
    ensures Unquote([quote] + value + [quote]) == Some(value)
    ensures value == [] || value[|value| - 1] != quote ==> Unquote([quote] + value) == None
  {
    assert ([quote] + value + [quote])[1..|value| + 1] == value;
  }

  /** What a flag does in a configuration file: a true word, in any case, gives it as on the command line, a
      false word passes "false", and anything else is refused. */
  lemma FlagsInFile(base: Opt, value: Text)
    requires !base.arg && base.key != COMPARE_KEY && base.key != DRY_RUN_KEY && IsCString(value)
    ensures SaysTrue(value) ==> Resolve(base, value) == Apply(base.key, None, false)
    ensures SaysFalse(value) ==> Resolve(base, value) == Apply(base.key, Some(Ascii("false")), false)
    ensures !SaysTrue(value) && !SaysFalse(value) ==> Resolve(base, value) == Rejected
  {
    hide Folded, Spells;
    TruthSpelled(value);
    OnlyOne(value);
    assert Ascii("false") == FALSE;
  }

  lemma OnlyOne(value: Text)
    ensures !(SaysTrue(value) && SaysFalse(value))
  {
    hide Folded;
    assert |Ascii("true")| == 4 && |Ascii("yes")| == 3 && |Ascii("on")| == 2 && |Ascii("y")| == |Ascii("1")| == 1;
    assert |Ascii("false")| == 5 && |Ascii("no")| == 2 && |Ascii("off")| == 3 && |Ascii("n")| == |Ascii("0")| == 1;
    assert Ascii("yes")[0] != Ascii("off")[0] && Ascii("on")[0] != Ascii("no")[0];
    assert Ascii("y")[0] !in {Ascii("n")[0], Ascii("0")[0]} && Ascii("1")[0] !in {Ascii("n")[0], Ascii("0")[0]};
  }

  /** The other options take their value as it is; dry-run also takes the truth words, and compare switches the
      comparison on and names a database. */
  lemma ValuesInFile(base: Opt, value: Text)
    requires IsCString(value)
    ensures base.arg && base.key != COMPARE_KEY && base.key != DRY_RUN_KEY ==>
              Resolve(base, value) == Apply(base.key, Some(value), false)
    ensures base.key == DRY_RUN_KEY ==>
              Resolve(base, value) == if SaysFalse(value) then Apply(base.key, Some(Ascii("false")), false)
                else if SaysTrue(value) then Apply(base.key, None, false) else Apply(base.key, Some(value), false)
    ensures base.key == COMPARE_KEY ==>
              Resolve(base, value) == if value == [] then Rejected else Apply(KEY_ARG, Some(value), true)
  {
    hide Folded, Spells;
    TruthSpelled(value);
    assert Ascii("false") == FALSE;
  }

  lemma SameSpelling(a: Text, b: Text, spellings: seq<Text>)
    requires IsCString(a) && IsCString(b) && Folded(a) == Folded(b)
    requires forall i :: 0 <= i < |spellings| ==> IsCString(spellings[i])
    ensures Spells(a, spellings) <==> Spells(b, spellings)
  {
    forall i | 0 <= i < |spellings| ensures StrCaseCmp(a, spellings[i]) == 0 <==> StrCaseCmp(b, spellings[i]) == 0 {
      SameFolded(a, spellings[i]);
      SameFolded(b, spellings[i]);
    }
  }
}
