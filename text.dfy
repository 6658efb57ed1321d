/** The string operations the bot applies to incoming text: JavaScript's `trim`, the
    case-insensitive test against "skip", the `^[0-9]+$` amount pattern, the
    `startsWith('/')` command test, `split('T')[0]` on a timestamp and `split(',')`. */
module Text {

  /** The code points ECMAScript counts as WhiteSpace or LineTerminator, the set
      `String.prototype.trim` removes from both ends. */
  predicate IsWhitespace(c: char) {
    c == '\t' || c == '\n' || c == '\U{000B}' || c == '\U{000C}' || c == '\r' || c == ' '
    || c == '\U{00A0}' || c == '\U{1680}' || ('\U{2000}' <= c <= '\U{200A}')
    || c == '\U{2028}' || c == '\U{2029}' || c == '\U{202F}' || c == '\U{205F}'
    || c == '\U{3000}' || c == '\U{FEFF}'
  }

  predicate AllWhitespace(s: string) {
    forall i :: 0 <= i < |s| ==> IsWhitespace(s[i])
  }

  /** True when `s` neither starts nor ends with whitespace (the empty string included). */
  predicate Unpadded(s: string) {
    s == [] || (!IsWhitespace(s[0]) && !IsWhitespace(s[|s| - 1]))
  }

  /** The index of the first character of `s` that is not whitespace, or `|s|` when there is none. */
  function ContentStart(s: string): (i: nat)
    ensures i <= |s|
    ensures forall k :: 0 <= k < i ==> IsWhitespace(s[k])
    ensures i < |s| ==> !IsWhitespace(s[i])
    decreases |s|
  {
    if s == [] || !IsWhitespace(s[0]) then 0 else 1 + ContentStart(s[1..])
  }

  /** The index just past the last character of `s` that is not whitespace, or 0 when there is none. */
  function ContentEnd(s: string): (j: nat)
    ensures j <= |s|
    ensures forall k :: j <= k < |s| ==> IsWhitespace(s[k])
    ensures j > 0 ==> !IsWhitespace(s[j - 1])
    decreases |s|
  {
    if s == [] || !IsWhitespace(s[|s| - 1]) then |s| else ContentEnd(s[..|s| - 1])
  }

  /** JavaScript's `s.trim()`: what lies between the leading and the trailing whitespace. */
  function Trim(s: string): (r: string)
    ensures Unpadded(r)
  {
    var i, j := ContentStart(s), ContentEnd(s);
    if j <= i then [] else s[i..j]
  }

  /** `Trim(s)` is the slice of `s` left between a leading and a trailing run of whitespace. */
  lemma TrimShape(s: string)
    ensures var r, i := Trim(s), ContentStart(s);
      i + |r| <= |s| && r == s[i..i + |r|] && AllWhitespace(s[..i]) && AllWhitespace(s[i + |r|..])
  {
  }

  /** The converse of `TrimShape`: whatever the whitespace around an unpadded `t`,
      trimming gives back exactly `t`. */
  lemma TrimOfPadded(p: string, t: string, q: string)
    requires AllWhitespace(p) && AllWhitespace(q) && Unpadded(t)
    ensures Trim(p + t + q) == t
  {
    var x := p + t + q;
    var i, j := ContentStart(x), ContentEnd(x);
    if t == [] {
      assert x == p + q;
      assert AllWhitespace(x);
    } else {
      assert x[|p|] == t[0] && x[|p| + |t| - 1] == t[|t| - 1];
      assert forall k :: 0 <= k < |p| ==> x[k] == p[k];
      assert forall k :: |p| + |t| <= k < |x| ==> x[k] == q[k - |p| - |t|];
      assert i == |p|;
      assert j == |p| + |t|;
      assert x[i..j] == t;
    }
  }

  /** Trimming twice is trimming once. */
  lemma TrimIdempotent(s: string)
    ensures Trim(Trim(s)) == Trim(s)
  {
    var t := Trim(s);
    assert [] + t + [] == t;
    TrimOfPadded([], t, []);
  }

  /** `toLowerCase` on the code points whose lower case is one of the letters of "skip":
      the ASCII capitals and U+212A KELVIN SIGN, which lowers to 'k'. Every other code
      point is left as it is. */
  function LowerChar(c: char): char {
    if 'A' <= c <= 'Z' then (c as int + 32) as char
    else if c == '\U{212A}' then 'k'
    else c
  }

  /** `s.toLowerCase()`, character by character through `LowerChar`. */
  function Lower(s: string): string {
    seq(|s|, i requires 0 <= i < |s| => LowerChar(s[i]))
  }

  /** `s.toLowerCase() === 'skip'`. */
  predicate IsSkip(s: string) {
    Lower(s) == "skip"
  }

  /** The spellings `IsSkip` accepts, letter by letter. */
  lemma SkipSpellings(s: string)
    ensures IsSkip(s) <==>
      |s| == 4 && (s[0] == 's' || s[0] == 'S') && (s[1] == 'k' || s[1] == 'K' || s[1] == '\U{212A}')
      && (s[2] == 'i' || s[2] == 'I') && (s[3] == 'p' || s[3] == 'P')
  {
    if IsSkip(s) {
      assert |s| == 4;
      assert Lower(s)[0] == 's' && Lower(s)[1] == 'k' && Lower(s)[2] == 'i' && Lower(s)[3] == 'p';
    }
  }

  predicate IsDigit(c: char) {
    '0' <= c <= '9'
  }

  predicate AllDigits(s: string) {
    forall i :: 0 <= i < |s| ==> IsDigit(s[i])
  }

  /** The amount pattern `^[0-9]+$`: one or more ASCII digits and nothing else. */
  predicate IsDigits(s: string) {
    |s| > 0 && AllDigits(s)
  }

  /** `s.startsWith('/')`, the test that marks a message as a command. */
  predicate StartsWithSlash(s: string) {
    |s| > 0 && s[0] == '/'
  }

  /** A digit string is already trimmed and is never a command. */
  lemma DigitsAreUnpadded(s: string)
    requires IsDigits(s)
    ensures Unpadded(s) && Trim(s) == s && !StartsWithSlash(s)
  {
    assert [] + s + [] == s;
    TrimOfPadded([], s, []);
  }

  /** Trimming keeps a leading `/`, which is not whitespace; so text whose trim is a digit
      string is never a command. */
  lemma TrimKeepsSlash(s: string)
    ensures StartsWithSlash(s) <==> StartsWithSlash(Trim(s)) && ContentStart(s) == 0
  {
    if StartsWithSlash(s) {
      assert ContentStart(s) == 0 && ContentEnd(s) > 0;
    }
  }

  /** `s.split('T')[0]`: everything before the first 'T', or all of `s` when there is none. */
  function DatePart(s: string): (r: string)
    ensures |r| <= |s| && r == s[..|r|]
    ensures forall i :: 0 <= i < |r| ==> r[i] != 'T'
    ensures |r| < |s| ==> s[|r|] == 'T'
  {
    if s == [] || s[0] == 'T' then [] else [s[0]] + DatePart(s[1..])
  }

  /** `s.split(sep)` for a one-character separator: the pieces between separators, in
      order, with an empty piece wherever two separators meet or `s` starts or ends with one. */
  function Split(s: string, sep: char): (parts: seq<string>)
    ensures |parts| >= 1
    ensures forall i :: 0 <= i < |parts| ==> sep !in parts[i]
    decreases |s|
  {
    if s == [] then [[]]
    else
      var rest := Split(s[1..], sep);
      if s[0] == sep then [[]] + rest
      else [[s[0]] + rest[0]] + rest[1..]
  }

  /** `parts.join(sep)`. */
  function Join(parts: seq<string>, sep: char): string
    requires |parts| >= 1
    decreases |parts|
  {
    if |parts| == 1 then parts[0] else parts[0] + [sep] + Join(parts[1..], sep)
  }

  /** Splitting loses nothing: joining the pieces gives back the string. */
  lemma {:induction false} JoinSplit(s: string, sep: char)
    ensures Join(Split(s, sep), sep) == s
    decreases |s|
  {
    if s != [] {
      var rest := Split(s[1..], sep);
      JoinSplit(s[1..], sep);
      if s[0] == sep {
        assert Split(s, sep)[1..] == rest;
      } else {
        var parts := Split(s, sep);
        assert parts[1..] == rest[1..];
        if |rest| == 1 {
          assert parts == [[s[0]] + rest[0]];
        } else {
          assert Join(rest, sep) == rest[0] + [sep] + Join(rest[1..], sep);
        }
      }
    }
  }

  /** Splitting a join of separator-free pieces gives back the pieces. */
  lemma {:induction false} SplitJoin(parts: seq<string>, sep: char)
    requires |parts| >= 1
    requires forall i :: 0 <= i < |parts| ==> sep !in parts[i]
    ensures Split(Join(parts, sep), sep) == parts
    decreases |parts|, |parts[0]|
  {
    var head := parts[0];
    if head == [] {
      if |parts| > 1 {
        assert Join(parts, sep) == [sep] + Join(parts[1..], sep);
        assert ([sep] + Join(parts[1..], sep))[1..] == Join(parts[1..], sep);
        SplitJoin(parts[1..], sep);
        assert parts == [[]] + parts[1..];
      }
    } else {
      var shorter := [head[1..]] + parts[1..];
      assert shorter[1..] == parts[1..];
      forall i | 0 <= i < |shorter| ensures sep !in shorter[i] {
        if i == 0 { assert forall c :: c in head[1..] ==> c in head; }
      }
      SplitJoin(shorter, sep);
      var j := Join(parts, sep);
      if |parts| == 1 {
        assert j == head;
        assert Join(shorter, sep) == head[1..];
      } else {
        assert j == head + [sep] + Join(parts[1..], sep);
        assert Join(shorter, sep) == head[1..] + [sep] + Join(parts[1..], sep);
      }
      assert j == [head[0]] + Join(shorter, sep);
      assert j[1..] == Join(shorter, sep);
      assert head[0] != sep;
      assert head == [head[0]] + head[1..];
      assert parts == [head] + parts[1..];
    }
  }
}
