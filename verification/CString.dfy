/** NUL-terminated strings and the character functions of the C locale. */
module CString {
  import opened Common

  type Text = seq<Byte>  // a C string without its terminator

  predicate IsCString(s: Text) {
    0 !in s
  }

  /** The length of the C string at the start of a buffer. */
  function StrLen(buffer: Text): (n: nat)
    requires 0 in buffer
    ensures n < |buffer| && buffer[n] == 0 && 0 !in buffer[..n]
  {
    if buffer[0] == 0 then 0 else
      var n := 1 + StrLen(buffer[1..]);
      assert buffer[..n] == [buffer[0]] + buffer[1..][..n - 1];
      n
  }

  /** The C string at an offset of a buffer. */
  function StringAt(buffer: Text, start: nat): Text
    requires start <= |buffer| && 0 in buffer[start..]
  {
    buffer[start..][..StrLen(buffer[start..])]
  }

  lemma {:induction false} StrLenOf(word: Text, rest: Text)
    requires 0 !in word
    ensures 0 in word + [0] + rest && StrLen(word + [0] + rest) == |word|
  {
    var buffer := word + [0] + rest;
    assert buffer[|word|] == 0;
    if word != [] {
      StrLenOf(word[1..], rest);
      assert buffer[1..] == word[1..] + [0] + rest;
    }
  }

  predicate IsSpace(c: Byte) {
    c == 32 || 9 <= c <= 13
  }

  predicate AllSpace(s: Text) {
    forall i :: 0 <= i < |s| ==> IsSpace(s[i])
  }

  /** The number of leading blanks. */
  function Blanks(s: Text): (n: nat)
    ensures n <= |s| && AllSpace(s[..n])
    ensures n < |s| ==> !IsSpace(s[n])
  {
    if s != [] && IsSpace(s[0]) then 1 + Blanks(s[1..]) else 0
  }

  lemma {:induction false} BlanksOf(gap: Text, rest: Text)
    requires AllSpace(gap) && (rest == [] || !IsSpace(rest[0]))
    ensures Blanks(gap + rest) == |gap|
  {
    if gap == [] {
      assert gap + rest == rest;
    } else {
      assert (gap + rest)[1..] == gap[1..] + rest;
      BlanksOf(gap[1..], rest);
    }
  }

  function ToLower(c: int): int {
    if 65 <= c <= 90 then c + 32 else c
  }

  function Folded(s: Text): (t: seq<int>)
    ensures |t| == |s|
  {
    if s == [] then [] else [ToLower(s[0])] + Folded(s[1..])
  }

  /** `strcasecmp`. */
  function StrCaseCmp(a: Text, b: Text): int
    decreases |a|
  {
    if a == [] then (if b == [] then 0 else -ToLower(b[0]))
    else if b == [] then ToLower(a[0])
    else if ToLower(a[0]) != ToLower(b[0]) then ToLower(a[0]) - ToLower(b[0])
    else StrCaseCmp(a[1..], b[1..])
  }

  lemma {:induction false} SameFolded(a: Text, b: Text)
    requires IsCString(a) && IsCString(b)
    ensures StrCaseCmp(a, b) == 0 <==> Folded(a) == Folded(b)
    decreases |a|
  {
    if a != [] && b != [] {
      assert Folded(a)[0] == ToLower(a[0]) && Folded(b)[0] == ToLower(b[0]);
      assert Folded(a)[1..] == Folded(a[1..]) && Folded(b)[1..] == Folded(b[1..]);
      if ToLower(a[0]) == ToLower(b[0]) {
        SameFolded(a[1..], b[1..]);
      }
    }
  }
}
