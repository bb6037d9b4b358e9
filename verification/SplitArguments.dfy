/** Splitting compiler settings into arguments in place: `split_arguments` of configure.c. */
module SplitArguments {
  import opened Common
  import opened CString

  const NEWLINE: Byte := 10
  const QUOTATION: Byte := 34
  const DOLLAR: Byte := 36
  const APOSTROPHE: Byte := 39
  const BACKSLASH: Byte := 92
  const BACKTICK: Byte := 96

  // ----- What the arguments are -----

  /** A word and the length of the text it was read from. */
  datatype Piece = Piece(word: Text, used: nat)

  /** What a backslash followed by `c` stands for. */
  function Escaped(c: Byte, quote: Byte): Text {
    (if quote == QUOTATION && c !in {BACKSLASH, QUOTATION, DOLLAR, BACKTICK, NEWLINE} then [BACKSLASH] else [])
    + (if c != NEWLINE then [c] else [])
  }

  predicate IsEscape(c: Byte, quote: Byte) {
    c == BACKSLASH && quote != APOSTROPHE
  }

  predicate TogglesQuote(c: Byte, quote: Byte) {
    c in {APOSTROPHE, QUOTATION} && (quote == 0 || quote == c)
  }

  function Prepend(p: Text, used: nat, piece: Option<Piece>): (r: Option<Piece>)
    ensures r.Some? <==> piece.Some?
  {
    match piece
    case None => None
    case Some(Piece(word, more)) => Some(Piece(p + word, used + more))
  }

  /** The word at the start of the text, inside the given quote (0: outside quotes), unless a quote
      or an escape is unfinished. */
  function Word(s: Text, quote: Byte): (r: Option<Piece>)
    ensures r.Some? ==> r.value.used <= |s|
  {
    if s == [] then
      if quote == 0 then Some(Piece([], 0)) else None
    else if quote == 0 && IsSpace(s[0]) then
      Some(Piece([], 0))
    else if IsEscape(s[0], quote) then
      if |s| == 1 then None else Prepend(Escaped(s[1], quote), 2, Word(s[2..], quote))
    else if TogglesQuote(s[0], quote) then
      Prepend([], 1, Word(s[1..], if quote == 0 then s[0] else 0))
    else
      Prepend([s[0]], 1, Word(s[1..], quote))
  }

  function Split(s: Text): (r: Option<seq<Text>>)
    decreases |s|
  {
    var t := s[Blanks(s)..];
    if t == [] then Some([]) else
      var first := Word(t, 0);
      if first.None? then None else
        WordFacts(t, 0);
        var others := Split(t[first.value.used..]);
        if others.None? then None else Some([first.value.word] + others.value)
  }

  /** A word ends at a blank or at the end of the text, is no longer than what it was read from, and
      holds no NUL. */
  lemma {:induction false} WordFacts(s: Text, quote: Byte)
    requires Word(s, quote).Some?
    ensures var p := Word(s, quote).value;
      && (p.used < |s| ==> IsSpace(s[p.used]))
      && |p.word| <= p.used
      && (s != [] && (quote != 0 || !IsSpace(s[0])) ==> p.used > 0)
      && (0 !in s ==> 0 !in p.word)
  {
    if s == [] || (quote == 0 && IsSpace(s[0])) {
    } else if IsEscape(s[0], quote) {
      WordFacts(s[2..], quote);
    } else if TogglesQuote(s[0], quote) {
      WordFacts(s[1..], if quote == 0 then s[0] else 0);
    } else {
      WordFacts(s[1..], quote);
    }
  }

  // ----- Splitting in place -----

  /** Words written one after the other, each with its terminator. */
  function Packed(words: seq<Text>): Text {
    if words == [] then [] else Packed(words[..|words| - 1]) + words[|words| - 1] + [0]
  }

  /** The text from the read cursor on is still the original. */
  ghost predicate Unread(text: array<Byte>, s: Text, read: nat)
    reads text
  {
    && read <= |s| < text.Length && text[|s|] == 0
    && forall i :: read <= i < |s| ==> text[i] == s[i]
  }

  method SkipSpaces(text: array<Byte>, from: nat, ghost s: Text) returns (read: nat)
    requires Unread(text, s, from)
    ensures from <= read <= |s| && read == from + Blanks(s[from..])
  {
    read := from;
    while IsSpace(text[read])
      invariant from <= read <= |s| && read + Blanks(s[read..]) == from + Blanks(s[from..])
      decreases |s| - read
    {
      assert s[read..][1..] == s[read + 1..];
      read := read + 1;
    }
  }

  lemma PrependTwice(p: Text, u: nat, q: Text, v: nat, piece: Option<Piece>)
    ensures Prepend(p, u, Prepend(q, v, piece)) == Prepend(p + q, u + v, piece)
  {
    if piece.Some? {
      assert p + (q + piece.value.word) == (p + q) + piece.value.word;
    }
  }

  /** One step of the quote and escape handling: the byte at `read`, or the two bytes of an escape. */
  method TakeStep(text: array<Byte>, read0: nat, write0: nat, quote0: Byte, ghost s: Text)
    returns (ok: bool, read: nat, write: nat, quote: Byte)
    requires write0 <= read0 < |s| && 0 !in s
    requires Unread(text, s, read0)
    requires quote0 != 0 || !IsSpace(s[read0])
    modifies text
    ensures write0 <= write <= read <= |s| && read0 < read
    ensures text[..write0] == old(text[..write0])
    ensures Unread(text, s, read)
    ensures forall i :: |s| <= i < text.Length ==> text[i] == old(text[i])
    ensures !ok ==> Word(s[read0..], quote0).None?
    ensures ok ==> Word(s[read0..], quote0) == Prepend(text[write0..write], read - read0, Word(s[read..], quote))
  {
    assert s[read0..][0] == s[read0] && s[read0..][1..] == s[read0 + 1..];
    var character := text[read0];
    ok, write, quote := true, write0, quote0;
    read := read0 + 1;
    if IsEscape(character, quote) {
      if text[read] == 0 {
        assert read == |s|;
        return false, read, write, quote;
      }
      assert s[read0..][1] == s[read] == text[read] && s[read0..][2..] == s[read + 1..];
      var c := text[read];
      if quote == QUOTATION && c !in {BACKSLASH, QUOTATION, DOLLAR, BACKTICK, NEWLINE} {
        text[write] := BACKSLASH;
        write := write + 1;
      }
      if c != NEWLINE {
        text[write] := c;
        write := write + 1;
      }
      read := read + 1;
      assert text[write0..write] == Escaped(c, quote);
    } else if TogglesQuote(character, quote) {
      quote := if quote == 0 then character else 0;
      assert text[write0..write] == [];
    } else {
      text[write] := character;
      write := write + 1;
      assert text[write0..write] == [character];
    }
  }

  /** Copy one word down to `write0`, without quotes and escapes. */
  method TakeWord(text: array<Byte>, read0: nat, write0: nat, ghost s: Text)
    returns (ok: bool, read: nat, write: nat)
    requires write0 <= read0 && Unread(text, s, read0) && 0 !in s
    modifies text
    ensures write0 <= write <= read && read0 <= read
    ensures text[..write0] == old(text[..write0])
    ensures Unread(text, s, read)
    ensures forall i :: |s| <= i < text.Length ==> text[i] == old(text[i])
    ensures ok <==> Word(s[read0..], 0).Some?
    ensures ok ==> Word(s[read0..], 0) == Some(Piece(text[write0..write], read - read0))
  {
    hide Word, Prepend;
    var quote: Byte := 0;
    read, write := read0, write0;
    assert text[write0..write0] == [];
    PrependNothing(Word(s[read0..], 0));
    while text[read] != 0 && (quote != 0 || !IsSpace(text[read]))
      invariant write0 <= write <= read && read0 <= read && Unread(text, s, read)
      invariant text[..write0] == old(text[..write0])
      invariant forall i :: |s| <= i < text.Length ==> text[i] == old(text[i])
      invariant Word(s[read0..], 0) == Prepend(text[write0..write], read - read0, Word(s[read..], quote))
      decreases |s| - read
    {
      ghost var word, before, from := text[write0..write], text[..write], read;
      ok, read, write, quote := TakeStep(text, read, write, quote, s);
      assert text[..write0] == before[..write0];
      assert text[write0..|before|] == word;
      if !ok {
        return;
      }
      PrependTwice(word, from - read0, text[|before|..write], read - from, Word(s[read..], quote));
      assert text[write0..write] == word + text[|before|..write];
    }
    ok := quote == 0;
    WordEnd(s[read..], quote, text[write0..write], read - read0);
  }

  lemma WordEnd(s: Text, quote: Byte, word: Text, used: nat)
    requires s == [] || (quote == 0 && IsSpace(s[0]))
    ensures Prepend(word, used, Word(s, quote)) == if quote == 0 then Some(Piece(word, used)) else None
  {
    assert word + [] == word;
  }

  lemma PrependNothing(piece: Option<Piece>)
    ensures Prepend([], 0, piece) == piece
  {
    if piece.Some? {
      assert [] + piece.value.word == piece.value.word;
    }
  }

  function Extend(words: seq<Text>, others: Option<seq<Text>>): Option<seq<Text>> {
    if others.Some? then Some(words + others.value) else None
  }

  lemma SplitSkips(s: Text)
    ensures Split(s[Blanks(s)..]) == Split(s)
  {
    var t := s[Blanks(s)..];
    assert Blanks(t) == 0 && t[0..] == t;
  }

  /** Where each argument starts. */
  ghost predicate Located(words: seq<Text>, starts: seq<nat>) {
    |starts| == |words| && forall i :: 0 <= i < |words| ==> starts[i] == |Packed(words[..i])|
  }

  lemma ExtendNothing(others: Option<seq<Text>>)
    ensures Extend([], others) == others
  {
    if others.Some? {
      assert [] + others.value == others.value;
    }
  }

  lemma ExtendTwice(words: seq<Text>, word: Text, others: Option<seq<Text>>)
    ensures Extend(words, Extend([word], others)) == Extend(words + [word], others)
  {
    if others.Some? {
      assert words + ([word] + others.value) == (words + [word]) + others.value;
    }
  }

  lemma PackOne(words: seq<Text>, word: Text)
    ensures Packed(words + [word]) == Packed(words) + word + [0]
  {
    assert (words + [word])[..|words|] == words;
  }

  lemma SplitFirst(t: Text)
    requires t != [] && !IsSpace(t[0])
    ensures Word(t, 0).None? ==> Split(t).None?
    ensures Word(t, 0).Some? ==>
      Split(t) == Extend([Word(t, 0).value.word], Split(t[Word(t, 0).value.used..]))
  {
    assert Blanks(t) == 0 && t[0..] == t;
  }

  /** Take the word at `start`, skip the blanks after it, and end it with a NUL. */
  method TakeArgument(text: array<Byte>, start: nat, begin: nat, ghost s: Text)
    returns (ok: bool, read: nat, write: nat, ghost word: Text)
    requires begin <= start < |s| && Unread(text, s, start) && 0 !in s && !IsSpace(s[start])
    modifies text
    ensures ok ==> start < read && Unread(text, s, read)
    ensures !ok ==> Split(s[start..]).None?
    ensures ok ==> begin < write <= text.Length && (write <= read || read == |s|)
    ensures ok ==> (start + 2 <= read || read == |s|)
    ensures ok ==> text[..write] == old(text[..begin]) + word + [0]
    ensures ok ==> Split(s[start..]) == Extend([word], Split(s[read..]))
    ensures forall i :: |s| < i < text.Length ==> text[i] == old(text[i])
  {
    hide Word, Blanks, Split, Packed;
    SplitFirst(s[start..]);
    ok, read, write := TakeWord(text, start, begin, s);
    word := text[begin..write];
    if !ok {
      return;
    }
    var stop := read;
    read := SkipSpaces(text, read, s);
    ArgumentSplit(s, start, stop, read, word);
    ghost var before := text[..write];
    assert before == old(text[..begin]) + word;
    text[write] := 0;
    assert text[..write] == before;
    write := write + 1;
  }

  lemma ArgumentSplit(s: Text, start: nat, stop: nat, read: nat, word: Text)
    requires start <= stop <= read <= |s| && start < |s| && !IsSpace(s[start])
    requires Word(s[start..], 0) == Some(Piece(word, stop - start)) && read == stop + Blanks(s[stop..])
    ensures start < stop && (stop < read || stop == |s|)
    ensures Split(s[start..]) == Extend([word], Split(s[read..]))
  {
    hide Word, Split;
    WordFacts(s[start..], 0);
    SplitFirst(s[start..]);
    assert s[start..][stop - start..] == s[stop..];
    SplitSkips(s[stop..]);
    assert s[stop..][read - stop..] == s[read..];
    if stop < |s| {
      assert s[start..][stop - start] == s[stop];
    }
  }

  /** `split_arguments`: the arguments are the words of the text, packed at its start; there are at
      most half as many as there are bytes, rounded up. */
  method SplitArguments(text: array<Byte>, arguments: array<nat>, count0: nat) returns (ok: bool, count: nat)
    requires 0 in text[..]
    requires count0 + StrLen(text[..]) + 1 <= arguments.Length
    modifies text, arguments
    ensures count0 <= count && 2 * (count - count0) <= old(StrLen(text[..])) + 1
    ensures arguments[..count0] == old(arguments[..count0])
    ensures old(StrLen(text[..])) < text.Length
    ensures forall i :: old(StrLen(text[..])) < i < text.Length ==> text[i] == old(text[i])
    ensures var split := Split(old(text[..StrLen(text[..])]));
      && (ok <==> split.Some?)
      && (ok ==> |Packed(split.value)| <= text.Length)
      && (ok ==> text[..|Packed(split.value)|] == Packed(split.value))
      && (ok ==> Located(split.value, arguments[count0..count]))
  {
    hide Split, Packed, Blanks, StrLen;
    ghost var s := text[..StrLen(text[..])];
    ghost var words: seq<Text> := [];
    var read, write := 0, 0;
    count := count0;
    ok := true;
    assert s[0..] == s;
    ExtendNothing(Split(s));
    EmptyPack();
    while text[read] != 0
      invariant 0 <= write <= text.Length && (write <= read || read == |s|)
      invariant Unread(text, s, read)
      invariant text[..write] == Packed(words)
      invariant count == count0 + |words| && (2 * |words| <= read || (read == |s| && 2 * |words| <= read + 1))
      invariant Located(words, arguments[count0..count])
      invariant arguments[..count0] == old(arguments[..count0])
      invariant forall i :: |s| < i < text.Length ==> text[i] == old(text[i])
      invariant Split(s) == Extend(words, Split(s[read..]))
      decreases |s| - read
    {
      var from := read;
      read := SkipSpaces(text, read, s);
      SplitSkips(s[from..]);
      assert s[read..] == s[from..][read - from..];
      if text[read] == 0 {
        break;
      }
      assert !IsSpace(s[read]);
      arguments[count] := write;
      count := count + 1;
      ghost var word;
      ok, read, write, word := TakeArgument(text, read, write, s);
      if !ok {
        return;
      }
      PackOne(words, word);
      ExtendTwice(words, word, Split(s[read..]));
      LocateOne(words, word, arguments[count0..count]);
      words := words + [word];
    }
    SplitEnd(s[read..]);
    assert words + [] == words;
  }

  lemma EmptyPack()
    ensures Packed([]) == []
  {
  }

  lemma SplitEnd(t: Text)
    requires t == []
    ensures Split(t) == Some([])
  {
  }

  lemma LocateOne(words: seq<Text>, word: Text, starts: seq<nat>)
    requires |starts| == |words| + 1 && Located(words, starts[..|words|]) && starts[|words|] == |Packed(words)|
    ensures Located(words + [word], starts)
  {
    forall i | 0 <= i <= |words| ensures starts[i] == |Packed((words + [word])[..i])| {
      assert (words + [word])[..i] == words[..i];
      assert words[..|words|] == words;
      assert i < |words| ==> starts[i] == starts[..|words|][i];
    }
  }

  // ----- Reading the arguments back -----

  lemma {:induction false} PackedSplits(words: seq<Text>, i: nat)
    requires i < |words|
    ensures Packed(words[..i]) + words[i] + [0] <= Packed(words)
    decreases |words|
  {
    var init := words[..|words| - 1];
    if i < |init| {
      PackedSplits(init, i);
      assert init[..i] == words[..i];
    }
  }

  /** Each argument is read back from where the array says it starts, whatever follows the packed
      words in the buffer. */
  lemma ArgumentsReadBack(words: seq<Text>, starts: seq<nat>, buffer: Text, i: nat)
    requires i < |words| && Located(words, starts)
    requires forall k :: 0 <= k < |words| ==> 0 !in words[k]
    requires Packed(words) <= buffer
    ensures starts[i] <= |buffer| && 0 in buffer[starts[i]..] && StringAt(buffer, starts[i]) == words[i]
  {
    hide StrLen, Packed;
    PackedSplits(words, i);
    var head := Packed(words[..i]) + words[i] + [0];
    var rest := buffer[|head|..];
    assert buffer == head + rest;
    assert buffer[starts[i]..] == words[i] + [0] + rest;
    StrLenOf(words[i], rest);
    assert (words[i] + [0] + rest)[..|words[i]|] == words[i];
  }

  lemma {:induction false} SplitHoldsNoNul(s: Text)
    requires 0 !in s && Split(s).Some?
    ensures forall k :: 0 <= k < |Split(s).value| ==> 0 !in Split(s).value[k]
    decreases |s|
  {
    var t := s[Blanks(s)..];
    if t != [] {
      WordFacts(t, 0);
      SplitHoldsNoNul(t[Word(t, 0).value.used..]);
    }
  }

  // ----- Quoting -----

  /** An argument between single quotes; a single quote inside is written '\''. */
  function Inner(arg: Text): Text {
    if arg == [] then []
    else (if arg[0] == APOSTROPHE then [APOSTROPHE, BACKSLASH, APOSTROPHE, APOSTROPHE] else [arg[0]]) + Inner(arg[1..])
  }

  function Quoted(arg: Text): Text {
    [APOSTROPHE] + Inner(arg) + [APOSTROPHE]
  }

  /** Each argument with the blanks that follow it. */
  function Written(args: seq<Text>, gaps: seq<Text>): Text
    requires |args| == |gaps|
  {
    if args == [] then [] else Quoted(args[0]) + gaps[0] + Written(args[1..], gaps[1..])
  }

  /** Blanks, at least one between two arguments. */
  ghost predicate Separating(gaps: seq<Text>) {
    && (forall i :: 0 <= i < |gaps| ==> AllSpace(gaps[i]))
    && (forall i :: 0 <= i < |gaps| - 1 ==> gaps[i] != [])
  }

  /** A single quote closes the quote, is written as itself behind a backslash, and opens it again. */
  lemma EscapedApostrophe(rest: Text)
    ensures Word([APOSTROPHE, BACKSLASH, APOSTROPHE, APOSTROPHE] + rest, APOSTROPHE)
         == Prepend([APOSTROPHE], 4, Word(rest, APOSTROPHE))
  {
    var s3 := [APOSTROPHE] + rest;
    var s2 := [BACKSLASH, APOSTROPHE] + s3;
    var s1 := [APOSTROPHE, BACKSLASH, APOSTROPHE, APOSTROPHE] + rest;
    assert s1[1..] == s2 && s2[2..] == s3 && s3[1..] == rest;
    var w := Word(rest, APOSTROPHE);
    assert Escaped(APOSTROPHE, 0) == [APOSTROPHE];
    assert Word(s3, 0) == Prepend([], 1, w);
    assert Word(s2, 0) == Prepend([APOSTROPHE], 2, Word(s3, 0));
    PrependTwice([APOSTROPHE], 2, [], 1, w);
    assert Word(s1, APOSTROPHE) == Prepend([], 1, Word(s2, 0));
    PrependTwice([], 1, [APOSTROPHE] + [], 3, w);
    assert [] + ([APOSTROPHE] + []) == [APOSTROPHE];
  }

  lemma WordPlain(c: Byte, rest: Text, quote: Byte)
    requires quote == APOSTROPHE && c != APOSTROPHE
    ensures Word([c] + rest, quote) == Prepend([c], 1, Word(rest, quote))
  {
    assert ([c] + rest)[1..] == rest;
  }

  lemma {:induction false} InnerReads(arg: Text, rest: Text)
    ensures Word(Inner(arg) + rest, APOSTROPHE) == Prepend(arg, |Inner(arg)|, Word(rest, APOSTROPHE))
  {
    hide Word, Prepend;
    if arg == [] {
      assert Inner(arg) + rest == rest;
      PrependNothing(Word(rest, APOSTROPHE));
    } else {
      var more := Inner(arg[1..]);
      InnerReads(arg[1..], rest);
      if arg[0] == APOSTROPHE {
        assert Inner(arg) + rest == [APOSTROPHE, BACKSLASH, APOSTROPHE, APOSTROPHE] + (more + rest);
        EscapedApostrophe(more + rest);
        PrependTwice([APOSTROPHE], 4, arg[1..], |more|, Word(rest, APOSTROPHE));
      } else {
        assert Inner(arg) + rest == [arg[0]] + (more + rest);
        WordPlain(arg[0], more + rest, APOSTROPHE);
        PrependTwice([arg[0]], 1, arg[1..], |more|, Word(rest, APOSTROPHE));
      }
      assert [arg[0]] + arg[1..] == arg;
    }
  }

  lemma QuotedReads(arg: Text, rest: Text)
    requires rest == [] || IsSpace(rest[0])
    ensures Word(Quoted(arg) + rest, 0) == Some(Piece(arg, |Quoted(arg)|))
  {
    var close := [APOSTROPHE] + rest;
    assert Quoted(arg) + rest == [APOSTROPHE] + (Inner(arg) + close);
    assert ([APOSTROPHE] + (Inner(arg) + close))[1..] == Inner(arg) + close;
    InnerReads(arg, close);
    assert close[1..] == rest;
    assert Word(rest, 0) == Some(Piece([], 0));
    assert Word(close, APOSTROPHE) == Some(Piece([], 1));
    assert Word(Inner(arg) + close, APOSTROPHE) == Some(Piece(arg + [], |Inner(arg)| + 1));
    assert arg + [] == arg && [] + arg == arg;
  }

  /** Single-quoted arguments separated by blanks split into the arguments, empty ones included. */
  lemma {:induction false} SplitReadsQuoted(lead: Text, args: seq<Text>, gaps: seq<Text>)
    requires AllSpace(lead) && |args| == |gaps| && Separating(gaps)
    ensures Split(lead + Written(args, gaps)) == Some(args)
    decreases |args|
  {
    hide Word, Blanks;
    var t := Written(args, gaps);
    BlanksOf(lead, t);
    assert (lead + t)[|lead|..] == t;
    if args == [] {
      SplitEnd(t);
    } else {
      var rest := gaps[0] + Written(args[1..], gaps[1..]);
      WrittenStep(args, gaps);
      QuotedReads(args[0], rest);
      assert t[|Quoted(args[0])|..] == rest;
      SplitReadsQuoted(gaps[0], args[1..], gaps[1..]);
      assert [args[0]] + args[1..] == args;
    }
    SplitSkips(lead + t);
  }

  lemma NothingWritten(args: seq<Text>, gaps: seq<Text>)
    requires |args| == |gaps| == 0
    ensures Written(args, gaps) == []
  {
  }

  lemma WrittenStep(args: seq<Text>, gaps: seq<Text>)
    requires |args| == |gaps| && args != [] && Separating(gaps)
    ensures Separating(gaps[1..])
    ensures Written(args, gaps)[0] == APOSTROPHE
    ensures var rest := gaps[0] + Written(args[1..], gaps[1..]);
      Written(args, gaps) == Quoted(args[0]) + rest && (rest == [] || IsSpace(rest[0]))
  {
    hide Inner;
    assert forall i :: 0 <= i < |gaps| - 1 ==> gaps[1..][i] == gaps[i + 1];
    var more := Written(args[1..], gaps[1..]);
    assert (Quoted(args[0]) + gaps[0]) + more == Quoted(args[0]) + (gaps[0] + more);
    if |args| > 1 {
      assert gaps[0] != [] && IsSpace(gaps[0][0]);
    } else {
      NothingWritten(args[1..], gaps[1..]);
      assert gaps[0] + [] == gaps[0];
    }
  }

  // ----- Spelling arguments -----

  /** One byte, as itself or behind a backslash. */
  datatype Item = Char(c: Byte) | Escape(c: Byte)

  /** A stretch of an argument: outside quotes, or inside one kind of them. */
  datatype Part = Bare(item: Item) | Single(text: Text) | Double(items: seq<Item>)

  function SpellItem(i: Item): Text {
    match i
    case Char(c) => [c]
    case Escape(c) => [BACKSLASH, c]
  }

  function SpellItems(items: seq<Item>): Text {
    if items == [] then [] else SpellItem(items[0]) + SpellItems(items[1..])
  }

  function SpellPart(p: Part): Text {
    match p
    case Bare(item) => SpellItem(item)
    case Single(text) => [APOSTROPHE] + text + [APOSTROPHE]
    case Double(items) => [QUOTATION] + SpellItems(items) + [QUOTATION]
  }

  function Spell(parts: seq<Part>): Text {
    if parts == [] then [] else SpellPart(parts[0]) + Spell(parts[1..])
  }

  /** Outside quotes a backslash makes the next byte plain, and joins lines. */
  function MeansBare(i: Item): Text {
    match i
    case Char(c) => [c]
    case Escape(c) => if c == NEWLINE then [] else [c]
  }

  /** Between double quotes it does so only before \ " $ ` and a newline; elsewhere it stays. */
  function MeansQuoted(i: Item): Text {
    match i
    case Char(c) => [c]
    case Escape(c) =>
      if c == NEWLINE then []
      else if c == BACKSLASH || c == QUOTATION || c == DOLLAR || c == BACKTICK then [c]
      else [BACKSLASH, c]
  }

  function MeansDouble(items: seq<Item>): Text {
    if items == [] then [] else MeansQuoted(items[0]) + MeansDouble(items[1..])
  }

  function MeansPart(p: Part): Text {
    match p
    case Bare(item) => MeansBare(item)
    case Single(text) => text
    case Double(items) => MeansDouble(items)
  }

  function Means(parts: seq<Part>): Text {
    if parts == [] then [] else MeansPart(parts[0]) + Means(parts[1..])
  }

  /** What can stand as itself. */
  predicate WellSpelled(p: Part) {
    match p
    case Bare(Char(c)) => c !in {APOSTROPHE, QUOTATION, BACKSLASH} && !IsSpace(c)
    case Bare(Escape(_)) => true
    case Single(text) => APOSTROPHE !in text
    case Double(items) => forall i :: i in items && i.Char? ==> i.c !in {QUOTATION, BACKSLASH}
  }

  lemma WordByte(c: Byte, rest: Text, quote: Byte)
    requires quote != 0 || !IsSpace(c)
    requires !IsEscape(c, quote) && !TogglesQuote(c, quote)
    ensures Word([c] + rest, quote) == Prepend([c], 1, Word(rest, quote))
  {
    assert ([c] + rest)[1..] == rest;
  }

  lemma WordToggle(c: Byte, rest: Text, quote: Byte)
    requires TogglesQuote(c, quote) && !IsSpace(c)
    ensures Word([c] + rest, quote) == Prepend([], 1, Word(rest, if quote == 0 then c else 0))
  {
    assert ([c] + rest)[1..] == rest;
  }

  lemma WordEscape(c: Byte, rest: Text, quote: Byte)
    requires quote != APOSTROPHE
    ensures Word([BACKSLASH, c] + rest, quote) == Prepend(Escaped(c, quote), 2, Word(rest, quote))
  {
    assert ([BACKSLASH, c] + rest)[2..] == rest;
  }

  lemma {:induction false} SingleReads(text: Text, rest: Text)
    requires APOSTROPHE !in text
    ensures Word(text + rest, APOSTROPHE) == Prepend(text, |text|, Word(rest, APOSTROPHE))
  {
    hide Word, Prepend;
    if text == [] {
      assert text + rest == rest;
      PrependNothing(Word(rest, APOSTROPHE));
    } else {
      assert text + rest == [text[0]] + (text[1..] + rest);
      WordByte(text[0], text[1..] + rest, APOSTROPHE);
      SingleReads(text[1..], rest);
      PrependTwice([text[0]], 1, text[1..], |text| - 1, Word(rest, APOSTROPHE));
      assert [text[0]] + text[1..] == text;
    }
  }

  lemma {:induction false} DoubleReads(items: seq<Item>, rest: Text)
    requires WellSpelled(Double(items))
    ensures Word(SpellItems(items) + rest, QUOTATION)
         == Prepend(MeansDouble(items), |SpellItems(items)|, Word(rest, QUOTATION))
  {
    hide Word, Prepend;
    var w := Word(rest, QUOTATION);
    if items == [] {
      assert SpellItems(items) + rest == rest;
      PrependNothing(w);
    } else {
      var first, more := SpellItem(items[0]), SpellItems(items[1..]);
      assert SpellItems(items) + rest == first + (more + rest);
      DoubleReads(items[1..], rest);
      match items[0] {
        case Char(c) =>
          WordByte(c, more + rest, QUOTATION);
          PrependTwice([c], 1, MeansDouble(items[1..]), |more|, w);
        case Escape(c) =>
          WordEscape(c, more + rest, QUOTATION);
          assert Escaped(c, QUOTATION) == MeansQuoted(items[0]);
          PrependTwice(Escaped(c, QUOTATION), 2, MeansDouble(items[1..]), |more|, w);
      }
    }
  }

  lemma PartReads(p: Part, rest: Text)
    requires WellSpelled(p)
    ensures Word(SpellPart(p) + rest, 0) == Prepend(MeansPart(p), |SpellPart(p)|, Word(rest, 0))
  {
    hide Word, Prepend;
    var w := Word(rest, 0);
    match p {
      case Bare(Char(c)) =>
        WordByte(c, rest, 0);
      case Bare(Escape(c)) =>
        WordEscape(c, rest, 0);
        assert Escaped(c, 0) == MeansBare(Escape(c));
      case Single(text) =>
        QuotePart(APOSTROPHE, text, rest);
        SingleReads(text, [APOSTROPHE] + rest);
        PrependThrice(text, |text|, w);
      case Double(items) =>
        QuotePart(QUOTATION, SpellItems(items), rest);
        DoubleReads(items, [QUOTATION] + rest);
        PrependThrice(MeansDouble(items), |SpellItems(items)|, w);
    }
  }

  lemma QuotePart(quote: Byte, inside: Text, rest: Text)
    requires quote == APOSTROPHE || quote == QUOTATION
    ensures Word([quote] + inside + [quote] + rest, 0) == Prepend([], 1, Word(inside + ([quote] + rest), quote))
    ensures Word([quote] + rest, quote) == Prepend([], 1, Word(rest, 0))
  {
    hide Word;
    assert [quote] + inside + [quote] + rest == [quote] + (inside + ([quote] + rest));
    WordToggle(quote, inside + ([quote] + rest), 0);
    WordToggle(quote, rest, quote);
  }

  lemma PrependThrice(word: Text, used: nat, piece: Option<Piece>)
    ensures Prepend([], 1, Prepend(word, used, Prepend([], 1, piece))) == Prepend(word, used + 2, piece)
  {
    if piece.Some? {
      assert [] + (word + ([] + piece.value.word)) == word + piece.value.word;
    }
  }

  lemma {:induction false} PartsRead(parts: seq<Part>, rest: Text)
    requires forall p :: p in parts ==> WellSpelled(p)
    ensures Word(Spell(parts) + rest, 0) == Prepend(Means(parts), |Spell(parts)|, Word(rest, 0))
  {
    hide Word, Prepend;
    var w := Word(rest, 0);
    if parts == [] {
      assert Spell(parts) + rest == rest;
      PrependNothing(w);
    } else {
      var more := parts[1..];
      assert Spell(parts) + rest == SpellPart(parts[0]) + (Spell(more) + rest);
      PartReads(parts[0], Spell(more) + rest);
      PartsRead(more, rest);
      PrependTwice(MeansPart(parts[0]), |SpellPart(parts[0])|, Means(more), |Spell(more)|, w);
    }
  }

  /** A word of any stretches, quoted and unquoted, means them one after the other. */
  lemma WordReads(parts: seq<Part>, rest: Text)
    requires (forall p :: p in parts ==> WellSpelled(p)) && (rest == [] || IsSpace(rest[0]))
    ensures Word(Spell(parts) + rest, 0) == Some(Piece(Means(parts), |Spell(parts)|))
  {
    PartsRead(parts, rest);
    assert Word(rest, 0) == Some(Piece([], 0));
    assert Means(parts) + [] == Means(parts);
  }

  /** A quote that is not closed, or a backslash at the end, makes the word an error. */
  lemma UnfinishedWord(parts: seq<Part>, tail: Part)
    requires (forall p :: p in parts ==> WellSpelled(p)) && WellSpelled(tail)
    ensures tail.Single? ==> Word(Spell(parts) + ([APOSTROPHE] + tail.text), 0) == None
    ensures tail.Double? ==> Word(Spell(parts) + ([QUOTATION] + SpellItems(tail.items)), 0) == None
    ensures Word(Spell(parts) + [BACKSLASH], 0) == None
  {
    hide Word;
    PartsRead(parts, [BACKSLASH]);
    assert Word([BACKSLASH], 0) == None by { LoneBackslash(); }
    match tail {
      case Bare(_) =>
      case Single(text) =>
        PartsRead(parts, [APOSTROPHE] + text);
        OpenQuote(APOSTROPHE, text);
        SingleReads(text, []);
        assert text + [] == text;
      case Double(items) =>
        PartsRead(parts, [QUOTATION] + SpellItems(items));
        OpenQuote(QUOTATION, SpellItems(items));
        DoubleReads(items, []);
        assert SpellItems(items) + [] == SpellItems(items);
    }
  }

  lemma LoneBackslash()
    ensures Word([BACKSLASH], 0) == None
  {
  }

  lemma OpenQuote(quote: Byte, inside: Text)
    requires quote == APOSTROPHE || quote == QUOTATION
    ensures Word([quote] + inside, 0) == Prepend([], 1, Word(inside, quote))
    ensures Word([], quote) == None
  {
    WordToggle(quote, inside, 0);
  }

  /** Each argument with the blanks that follow it. */
  function SpellAll(args: seq<seq<Part>>, gaps: seq<Text>): Text
    requires |args| == |gaps|
  {
    if args == [] then [] else Spell(args[0]) + gaps[0] + SpellAll(args[1..], gaps[1..])
  }

  function MeansAll(args: seq<seq<Part>>): seq<Text> {
    if args == [] then [] else [Means(args[0])] + MeansAll(args[1..])
  }

  predicate Spellable(parts: seq<Part>) {
    parts != [] && forall p :: p in parts ==> WellSpelled(p)
  }

  lemma SpelledStart(parts: seq<Part>)
    requires Spellable(parts)
    ensures Spell(parts) != [] && !IsSpace(Spell(parts)[0])
  {
    assert WellSpelled(parts[0]);
    assert SpellPart(parts[0]) != [] && Spell(parts)[0] == SpellPart(parts[0])[0];
  }

  lemma SpellNothing(args: seq<seq<Part>>, gaps: seq<Text>)
    requires |args| == |gaps| == 0
    ensures SpellAll(args, gaps) == []
  {
  }

  /** Arguments spelled in any of these ways, separated by blanks, split into what they mean. */
  lemma {:induction false} SplitReads(lead: Text, args: seq<seq<Part>>, gaps: seq<Text>)
    requires AllSpace(lead) && |args| == |gaps| && Separating(gaps)
    requires forall a :: a in args ==> Spellable(a)
    ensures Split(lead + SpellAll(args, gaps)) == Some(MeansAll(args))
    decreases |args|
  {
    hide Word, Blanks, Spell, Means;
    var t := SpellAll(args, gaps);
    if args == [] {
      BlanksOf(lead, t);
      assert (lead + t)[|lead|..] == t;
      SplitEnd(t);
    } else {
      var rest := gaps[0] + SpellAll(args[1..], gaps[1..]);
      assert t == Spell(args[0]) + rest;
      assert args[0] in args;
      SpelledStart(args[0]);
      assert t[0] == Spell(args[0])[0];
      BlanksOf(lead, t);
      assert (lead + t)[|lead|..] == t;
      if gaps[0] == [] {
        assert |args| == 1;
        SpellNothing(args[1..], gaps[1..]);
      }
      assert rest == [] || IsSpace(rest[0]);
      WordReads(args[0], rest);
      assert t[|Spell(args[0])|..] == rest;
      SplitReads(gaps[0], args[1..], gaps[1..]);
    }
    SplitSkips(lead + t);
  }

  /** Plain arguments are taken as they are. */
  lemma {:induction false} PlainMeansItself(w: Text)
    requires forall i :: 0 <= i < |w| ==> w[i] !in {APOSTROPHE, QUOTATION, BACKSLASH} && !IsSpace(w[i])
    ensures Spell(Plain(w)) == w && Means(Plain(w)) == w
    ensures forall p :: p in Plain(w) ==> WellSpelled(p)
  {
    if w != [] {
      PlainMeansItself(w[1..]);
      assert Plain(w)[1..] == Plain(w[1..]);
    }
  }

  function Plain(w: Text): seq<Part> {
    if w == [] then [] else [Bare(Char(w[0]))] + Plain(w[1..])
  }

  /** An unquoted argument reads as itself. */
  lemma PlainReads(w: Text, rest: Text)
    requires forall i :: 0 <= i < |w| ==> w[i] !in {APOSTROPHE, QUOTATION, BACKSLASH} && !IsSpace(w[i])
    requires rest == [] || IsSpace(rest[0])
    ensures Word(w + rest, 0) == Some(Piece(w, |w|))
  {
    hide Word;
    PlainMeansItself(w);
    WordReads(Plain(w), rest);
  }
}
