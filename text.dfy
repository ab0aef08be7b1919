/**
 * Character classes and string helpers shared by the Python and the
 * TypeScript parts of the model.
 *
 * Python's `\s`, `str.strip()` and `int()` use the characters for which
 * `str.isspace()` holds; ECMAScript's `\s` and `String.prototype.trim()` use
 * a slightly different set.  Both are written out here.  `\w` and `\d` are
 * modelled on their ASCII members only.
 */
module Text {
  import opened Wrappers

  /** The characters for which Python's `str.isspace()` holds. */
  predicate IsPySpace(c: char) {
    ('\t' <= c <= '\r') || ('\U{1c}' <= c <= ' ') || c == '\U{85}' || c == '\U{a0}'
    || c == '\U{1680}' || ('\U{2000}' <= c <= '\U{200a}') || c == '\U{2028}'
    || c == '\U{2029}' || c == '\U{202f}' || c == '\U{205f}' || c == '\U{3000}'
  }

  /** ECMAScript WhiteSpace and LineTerminator: what `\s` and `trim()` use. */
  predicate IsJsSpace(c: char) {
    ('\t' <= c <= '\r') || c == ' ' || c == '\U{a0}' || c == '\U{1680}'
    || ('\U{2000}' <= c <= '\U{200a}') || c == '\U{2028}' || c == '\U{2029}'
    || c == '\U{202f}' || c == '\U{205f}' || c == '\U{3000}' || c == '\U{feff}'
  }

  /** ECMAScript LineTerminator: the characters `.` does not match. */
  predicate IsJsLineTerminator(c: char) {
    c == '\n' || c == '\r' || c == '\U{2028}' || c == '\U{2029}'
  }

  /** The line boundaries of Python's `str.splitlines()`. */
  predicate IsPyLineBreak(c: char) {
    ('\n' <= c <= '\r') || ('\U{1c}' <= c <= '\U{1e}') || c == '\U{85}' || c == '\U{2028}' || c == '\U{2029}'
  }

  predicate IsDigit(c: char) { '0' <= c <= '9' }

  predicate IsAsciiLower(c: char) { 'a' <= c <= 'z' }

  predicate IsAsciiLetter(c: char) { 'a' <= c <= 'z' || 'A' <= c <= 'Z' }

  /** A regex word character (`\w`), ASCII members only. */
  predicate IsWordChar(c: char) { IsAsciiLetter(c) || IsDigit(c) || c == '_' }

  predicate AllDigits(s: string) { forall i :: 0 <= i < |s| ==> IsDigit(s[i]) }

  /** `[a-z]` under Python's IGNORECASE: the 52 ASCII letters and four more. */
  predicate IsAzIgnoreCase(c: char) {
    IsAsciiLetter(c) || c == '\U{130}' || c == '\U{131}' || c == '\U{17f}' || c == '\U{212a}'
  }

  /** The character classes that runs and strips are taken over. */
  datatype CharClass =
    | PySpace       // Python `\s`
    | NonPySpace    // Python `\S`
    | JsSpace       // ECMAScript `\s`
    | Word          // `\w`
    | Digit         // `\d`
    | AzIgnoreCase  // `[a-z]` with IGNORECASE
    | ColonOrPySpace // `[:\s]`
    | NotSlash      // `[^/]`
    | NotPyLineBreak // not a boundary of Python's `str.splitlines()`

  predicate InClass(c: char, cls: CharClass) {
    match cls
    case PySpace => IsPySpace(c)
    case NonPySpace => !IsPySpace(c)
    case JsSpace => IsJsSpace(c)
    case Word => IsWordChar(c)
    case Digit => IsDigit(c)
    case AzIgnoreCase => IsAzIgnoreCase(c)
    case ColonOrPySpace => c == ':' || IsPySpace(c)
    case NotSlash => c != '/'
    case NotPyLineBreak => !IsPyLineBreak(c)
  }

  /** Length of the longest prefix of `s` whose characters all satisfy `p`. */
  function Span(s: string, p: CharClass): (n: nat)
    ensures n <= |s|
    ensures n == |s| || !InClass(s[n], p)
  {
    if |s| == 0 || !InClass(s[0], p) then 0 else 1 + Span(s[1..], p)
  }

  /** Every character of the span satisfies `p`. */
  lemma {:induction false} SpanChars(s: string, p: CharClass)
    ensures forall i :: 0 <= i < Span(s, p) ==> InClass(s[i], p)
    decreases |s|
  {
    if |s| > 0 && InClass(s[0], p) {
      SpanChars(s[1..], p);
      forall i | 0 < i < Span(s, p) ensures InClass(s[i], p) {
        assert s[i] == s[1..][i - 1];
      }
    }
  }

  /** `Span` is exactly `k` when the first `k` characters satisfy `p` and the next does not. */
  lemma {:induction false} SpanExact(s: string, p: CharClass, k: nat)
    requires k <= |s|
    requires forall i :: 0 <= i < k ==> InClass(s[i], p)
    requires k == |s| || !InClass(s[k], p)
    ensures Span(s, p) == k
    decreases k
  {
    if k > 0 {
      SpanExact(s[1..], p, k - 1);
    }
  }

  /** Length of the longest run of characters satisfying `p` that starts at position `i`. */
  function RunFrom(s: string, i: nat, p: CharClass): (n: nat)
    requires i <= |s|
    ensures i + n <= |s|
    ensures forall k :: i <= k < i + n ==> InClass(s[k], p)
    ensures i + n == |s| || !InClass(s[i + n], p)
    decreases |s| - i
  {
    if i == |s| || !InClass(s[i], p) then 0 else 1 + RunFrom(s, i + 1, p)
  }

  /** `RunFrom` is exactly `k` when the `k` characters from `i` satisfy `p` and the next does not. */
  lemma {:induction false} RunFromExact(s: string, i: nat, p: CharClass, k: nat)
    requires i + k <= |s|
    requires forall j :: i <= j < i + k ==> InClass(s[j], p)
    requires i + k == |s| || !InClass(s[i + k], p)
    ensures RunFrom(s, i, p) == k
    decreases k
  {
    if k > 0 {
      RunFromExact(s, i + 1, p, k - 1);
    }
  }

  /** Length of the longest suffix of `s` whose characters all satisfy `p`. */
  function SpanEnd(s: string, p: CharClass): (n: nat)
    ensures n <= |s|
    ensures n == |s| || !InClass(s[|s| - n - 1], p)
  {
    if |s| == 0 || !InClass(s[|s| - 1], p) then 0 else 1 + SpanEnd(s[..|s| - 1], p)
  }

  /** Every character of the end span satisfies `p`. */
  lemma {:induction false} SpanEndChars(s: string, p: CharClass)
    ensures forall i :: |s| - SpanEnd(s, p) <= i < |s| ==> InClass(s[i], p)
    decreases |s|
  {
    if |s| > 0 && InClass(s[|s| - 1], p) {
      SpanEndChars(s[..|s| - 1], p);
      forall i | |s| - SpanEnd(s, p) <= i < |s| - 1 ensures InClass(s[i], p) {
        assert s[i] == s[..|s| - 1][i];
      }
    }
  }

  /** `SpanEnd` is exactly `k` when the last `k` characters satisfy `p` and the one before them does not. */
  lemma {:induction false} SpanEndExact(s: string, p: CharClass, k: nat)
    requires k <= |s|
    requires forall i :: |s| - k <= i < |s| ==> InClass(s[i], p)
    requires k == |s| || !InClass(s[|s| - k - 1], p)
    ensures SpanEnd(s, p) == k
    decreases k
  {
    if k > 0 {
      var t := s[..|s| - 1];
      forall i | |t| - (k - 1) <= i < |t| ensures InClass(t[i], p) {
        assert t[i] == s[i];
      }
      if k - 1 < |t| {
        assert t[|t| - (k - 1) - 1] == s[|s| - k - 1];
      }
      SpanEndExact(t, p, k - 1);
    }
  }

  /** `s` with the characters satisfying `p` removed from both ends. */
  function StripBy(s: string, p: CharClass): (r: string)
    ensures |r| <= |s|
  {
    var n := Span(s, p);
    var t := s[n..];
    t[..|t| - SpanEnd(t, p)]
  }

  /** Neither end of a stripped string satisfies `p`. */
  lemma StripByEdges(s: string, p: CharClass)
    ensures StripBy(s, p) == [] || (!InClass(StripBy(s, p)[0], p) && !InClass(StripBy(s, p)[|StripBy(s, p)| - 1], p))
  {
    var n := Span(s, p);
    var t := s[n..];
    var e := SpanEnd(t, p);
    var r := t[..|t| - e];
    assert r != [] ==> r[0] == t[0] == s[n] && r[|r| - 1] == t[|t| - e - 1];
  }

  /** Python's `str.strip()` with no argument. */
  function PyStrip(s: string): string { StripBy(s, PySpace) }

  /** Python's `str.rstrip()` with no argument. */
  function PyRStrip(s: string): string { s[..|s| - SpanEnd(s, PySpace)] }

  /** Python's `str.lstrip()` with no argument. */
  function PyLStrip(s: string): string { s[Span(s, PySpace)..] }

  /** ECMAScript `String.prototype.trim()`. */
  function JsTrim(s: string): string { StripBy(s, JsSpace) }

  /** ECMAScript `String.prototype.trimEnd()`. */
  function JsTrimEnd(s: string): string { s[..|s| - SpanEnd(s, JsSpace)] }

  /** `trimEnd` removes a whitespace tail and leaves text that does not end in whitespace. */
  lemma JsTrimEndParts(s: string)
    ensures var t := JsTrimEnd(s);
      && |t| <= |s| && s == t + s[|t|..]
      && (t == [] || !IsJsSpace(t[|t| - 1]))
      && forall k :: |t| <= k < |s| ==> IsJsSpace(s[k])
  {
    SpanEndChars(s, JsSpace);
    var t := JsTrimEnd(s);
    if t != [] {
      assert t[|t| - 1] == s[|t| - 1];
    }
  }

  /** Stripping leaves a string with no strippable character at either end unchanged. */
  lemma StripByNoEdges(s: string, p: CharClass)
    requires s == [] || (!InClass(s[0], p) && !InClass(s[|s| - 1], p))
    ensures StripBy(s, p) == s
  {
  }

  /** `str.strip()` is idempotent. */
  lemma PyStripIdempotent(s: string)
    ensures PyStrip(PyStrip(s)) == PyStrip(s)
  {
    StripByEdges(s, PySpace);
    StripByNoEdges(PyStrip(s), PySpace);
  }

  /** `b` ends `a`. */
  predicate IsSuffix(b: string, a: string) {
    |b| <= |a| && b == a[|a| - |b|..]
  }

  lemma SuffixTransitive(a: string, b: string, c: string)
    requires IsSuffix(b, a) && IsSuffix(c, b)
    ensures IsSuffix(c, a)
  {
    assert a[|a| - |b|..][|b| - |c|..] == a[|a| - |c|..];
  }

  /** ASCII case folding, as `str.lower()` does on ASCII letters. */
  function LowerChar(c: char): char {
    if 'A' <= c <= 'Z' then (c as int + 32) as char else c
  }

  function Lower(s: string): (r: string)
    ensures |r| == |s|
    ensures forall i :: 0 <= i < |s| ==> r[i] == LowerChar(s[i])
  {
    if s == [] then [] else [LowerChar(s[0])] + Lower(s[1..])
  }

  /** Index of the first occurrence of `c` in `s`, if any. */
  function IndexOf(s: string, c: char): (r: Option<nat>)
    ensures r.Some? ==> r.value < |s| && s[r.value] == c
  {
    if |s| == 0 then None
    else if s[0] == c then Some(0)
    else match IndexOf(s[1..], c)
      case None => None
      case Some(k) => Some(k + 1)
  }

  /** `IndexOf` finds nothing exactly when `c` is absent, and otherwise its first occurrence. */
  lemma {:induction false} IndexOfFirst(s: string, c: char)
    ensures IndexOf(s, c).None? <==> c !in s
    ensures IndexOf(s, c).Some? ==> c !in s[..IndexOf(s, c).value]
    decreases |s|
  {
    if |s| > 0 && s[0] != c {
      IndexOfFirst(s[1..], c);
      assert s == [s[0]] + s[1..];
      if IndexOf(s, c).Some? {
        var k := IndexOf(s[1..], c).value;
        assert s[..k + 1] == [s[0]] + s[1..][..k];
      }
    }
  }

  /** The pieces of `s` between occurrences of `sep`, as Python's `s.split(sep)`. */
  function Split(s: string, sep: char): (r: seq<string>)
    ensures |r| >= 1
    ensures sep !in s ==> r == [s]
    decreases |s|
  {
    IndexOfFirst(s, sep);
    match IndexOf(s, sep)
    case None => [s]
    case Some(k) => [s[..k]] + Split(s[k + 1..], sep)
  }

  /** Splitting at the first separator, at position `k`. */
  lemma SplitFirst(s: string, sep: char, k: nat)
    requires IndexOf(s, sep) == Some(k)
    ensures Split(s, sep) == [s[..k]] + Split(s[k + 1..], sep)
  {
  }

  /** The first separator of `x` is still the first one of `x + w`. */
  lemma IndexOfExtend(x: string, w: string, sep: char, k: nat)
    requires IndexOf(x, sep) == Some(k)
    ensures IndexOf(x + w, sep) == Some(k)
    ensures (x + w)[..k] == x[..k] && (x + w)[k + 1..] == x[k + 1..] + w
  {
    IndexOfFirst(x, sep);
    assert x + w == x[..k] + [sep] + (x[k + 1..] + w);
    IndexOfAfter(x[..k], x[k + 1..] + w, sep);
  }

  /** No piece of a split holds the separator. */
  lemma {:induction false} SplitPieces(s: string, sep: char)
    ensures forall i :: 0 <= i < |Split(s, sep)| ==> sep !in Split(s, sep)[i]
    decreases |s|
  {
    IndexOfFirst(s, sep);
    match IndexOf(s, sep)
    case None =>
    case Some(k) =>
      SplitPieces(s[k + 1..], sep);
  }

  /**
   * The pieces of `s` between Python's `str.splitlines()` boundaries.  Unlike
   * `splitlines()` a final boundary leaves an empty last piece and "\r\n" an
   * empty piece between; every caller here drops blank pieces.
   */
  function SplitLines(s: string): (r: seq<string>)
    ensures forall i :: 0 <= i < |r| ==> forall k :: 0 <= k < |r[i]| ==> !IsPyLineBreak(r[i][k])
    decreases |s|
  {
    SpanChars(s, NotPyLineBreak);
    var k := Span(s, NotPyLineBreak);
    if k == |s| then [s] else [s[..k]] + SplitLines(s[k + 1..])
  }

  /** `s.rstrip("\n")`. */
  function TrimNewlines(s: string): (r: string)
    ensures |r| <= |s| && r == s[..|r|]
    ensures |r| == 0 || r[|r| - 1] != '\n'
  {
    if |s| > 0 && s[|s| - 1] == '\n' then TrimNewlines(s[..|s| - 1]) else s
  }

  /** The text `TrimNewlines` removes is newlines only. */
  lemma {:induction false} TrimNewlinesRemovesNewlines(s: string)
    ensures forall k :: |TrimNewlines(s)| <= k < |s| ==> s[k] == '\n'
    decreases |s|
  {
    if |s| > 0 && s[|s| - 1] == '\n' {
      TrimNewlinesRemovesNewlines(s[..|s| - 1]);
      forall k | |TrimNewlines(s)| <= k < |s| - 1 ensures s[k] == '\n' {
        assert s[k] == s[..|s| - 1][k];
      }
    }
  }

  /** `[l.strip() for l in lines if l.strip()]`. */
  function NonBlankStripped(lines: seq<string>): (r: seq<string>)
    ensures |r| <= |lines|
    ensures forall i :: 0 <= i < |r| ==> r[i] != []
  {
    if lines == [] then []
    else if PyStrip(lines[0]) == [] then NonBlankStripped(lines[1..])
    else [PyStrip(lines[0])] + NonBlankStripped(lines[1..])
  }

  /** The kept lines are the stripped forms of the input's non-blank lines: no blanks at either end. */
  lemma {:induction false} NonBlankStrippedSpec(lines: seq<string>)
    ensures forall i :: 0 <= i < |NonBlankStripped(lines)| ==>
      PyStrip(NonBlankStripped(lines)[i]) == NonBlankStripped(lines)[i]
    ensures forall l :: l in lines && PyStrip(l) != [] ==> PyStrip(l) in NonBlankStripped(lines)
    ensures forall x :: x in NonBlankStripped(lines) ==> exists l :: l in lines && x == PyStrip(l)
  {
    if lines != [] {
      NonBlankStrippedSpec(lines[1..]);
      PyStripIdempotent(lines[0]);
      assert forall l :: l in lines ==> l == lines[0] || l in lines[1..];
    }
  }

  /** `xs[:limit]` with Python's slice bound: a negative limit counts back from the end. */
  function SliceTo<T>(xs: seq<T>, limit: int): (r: seq<T>)
    ensures r <= xs
    ensures limit >= 0 ==> |r| == if limit < |xs| then limit else |xs|
    ensures limit < 0 ==> |r| == if |xs| + limit > 0 then |xs| + limit else 0
  {
    if limit >= 0 then (if limit < |xs| then xs[..limit] else xs)
    else if |xs| + limit > 0 then xs[..|xs| + limit] else []
  }

  /** Pieces joined with `sep` between them, as Python's `sep.join(parts)`. */
  function Join(parts: seq<string>, sep: string): string
  {
    if |parts| == 0 then ""
    else if |parts| == 1 then parts[0]
    else parts[0] + sep + Join(parts[1..], sep)
  }

  /** Splitting and joining with the same separator gives the string back. */
  lemma {:induction false} JoinSplit(s: string, sep: char)
    ensures Join(Split(s, sep), [sep]) == s
    decreases |s|
  {
    match IndexOf(s, sep)
    case None =>
    case Some(k) =>
      var rest := s[k + 1..];
      var parts := Split(rest, sep);
      JoinSplit(rest, sep);
      assert Split(s, sep) == [s[..k]] + parts;
      JoinCons(s[..k], parts, [sep]);
      SliceAround(s, k);
  }

  /** A string is the part before position `k`, the character there and the part after. */
  lemma SliceAround(s: string, k: nat)
    requires k < |s|
    ensures s[..k] + [s[k]] + s[k + 1..] == s
  {
  }

  /** Joining a piece in front of at least one more. */
  lemma JoinCons(a: string, rest: seq<string>, sep: string)
    requires |rest| >= 1
    ensures Join([a] + rest, sep) == a + sep + Join(rest, sep)
  {
    assert ([a] + rest)[1..] == rest;
  }

  /** Splitting after a leading piece free of `sep`. */
  lemma SplitCons(a: string, rest: string, sep: char)
    requires sep !in a
    ensures Split(a + [sep] + rest, sep) == [a] + Split(rest, sep)
  {
    var s := a + [sep] + rest;
    IndexOfAfter(a, rest, sep);
    assert s[..|a|] == a;
    assert s[|a| + 1..] == rest;
  }

  /** Two pieces without `sep`, joined by it, split back into those two pieces. */
  lemma SplitTwo(a: string, b: string, sep: char)
    requires sep !in a && sep !in b
    ensures Split(a + [sep] + b, sep) == [a, b]
  {
    SplitCons(a, b, sep);
  }

  /** Lines joined by `sep` and terminated by one more `sep` split back into the lines and one empty piece. */
  lemma {:induction false} SplitTerminatedJoin(lines: seq<string>, sep: char)
    requires |lines| >= 1
    requires forall i :: 0 <= i < |lines| ==> sep !in lines[i]
    ensures Split(Join(lines, [sep]) + [sep], sep) == lines + [""]
    decreases |lines|
  {
    var head := lines[0];
    if |lines| == 1 {
      assert Join(lines, [sep]) == head;
      SplitCons(head, "", sep);
      assert head + [sep] + "" == head + [sep];
      assert Split("", sep) == [""];
    } else {
      var tail := Join(lines[1..], [sep]);
      assert Join(lines, [sep]) == head + [sep] + tail;
      SplitTerminatedJoin(lines[1..], sep);
      assert Join(lines, [sep]) + [sep] == head + [sep] + (tail + [sep]);
      SplitCons(head, tail + [sep], sep);
      assert [head] + (lines[1..] + [""]) == lines + [""];
    }
  }

  /** Text-mode reading: `\r\n` and a lone `\r` both become `\n`. */
  function UniversalNewlines(s: string): (r: string)
    ensures '\r' !in s ==> r == s
    decreases |s|
  {
    if |s| == 0 then ""
    else if s[0] == '\r' then "\n" + UniversalNewlines(if |s| > 1 && s[1] == '\n' then s[2..] else s[1..])
    else [s[0]] + UniversalNewlines(s[1..])
  }

  /** The lines a text-mode file iterates over, without their '\n' (a final piece is "" or unterminated). */
  function FileLines(text: string): seq<string> {
    Split(UniversalNewlines(text), '\n')
  }

  /** A line with no blank at either end is its own strip. */
  lemma NoEdgesStrip(l: string)
    requires |l| > 0 && !IsPySpace(l[0]) && !IsPySpace(l[|l| - 1])
    ensures PyStrip(l) == l
  {
    assert Span(l, PySpace) == 0;
    assert l[0..] == l;
    assert SpanEnd(l, PySpace) == 0;
  }

  /** The first `c` is the one right after a prefix without `c`. */
  lemma {:induction false} IndexOfAfter(pre: string, rest: string, c: char)
    requires c !in pre
    ensures IndexOf(pre + [c] + rest, c) == Some(|pre|)
    decreases |pre|
  {
    if |pre| > 0 {
      assert (pre + [c] + rest)[1..] == pre[1..] + [c] + rest;
      IndexOfAfter(pre[1..], rest, c);
    }
  }

  /** `pat` occurs in `s` starting at position `j`. */
  predicate OccursAt(s: string, pat: string, j: int) {
    0 <= j && j + |pat| <= |s| && s[j..j + |pat|] == pat
  }

  /** Position of the first occurrence of `pat` in `s` at or after `from`. */
  function FindFrom(s: string, pat: string, from: nat): (r: Option<nat>)
    requires from <= |s|
    ensures r.Some? ==> from <= r.value && OccursAt(s, pat, r.value)
    ensures r.Some? ==> forall j :: from <= j < r.value ==> !OccursAt(s, pat, j)
    ensures r.None? ==> forall j :: from <= j ==> !OccursAt(s, pat, j)
    decreases |s| - from
  {
    if from + |pat| > |s| then None
    else if s[from..from + |pat|] == pat then Some(from)
    else FindFrom(s, pat, from + 1)
  }

  /** Substring containment, as Python's `pat in s` and ECMAScript's `s.includes(pat)`. */
  predicate Contains(s: string, pat: string) {
    exists j :: 0 <= j <= |s| && OccursAt(s, pat, j)
  }

  lemma FindFromContains(s: string, pat: string)
    ensures FindFrom(s, pat, 0).Some? <==> Contains(s, pat)
  {
  }

  // ---------------------------------------------------------------------
  // Decimal integers
  // ---------------------------------------------------------------------

  function DigitChar(d: nat): (c: char)
    requires d < 10
    ensures IsDigit(c)
  {
    ('0' as int + d) as char
  }

  function DigitValue(c: char): nat
    requires IsDigit(c)
  {
    c as int - '0' as int
  }

  /** Decimal text of a natural number, without leading zeros. */
  function NatToDecimal(n: nat): (r: string)
    ensures |r| >= 1 && AllDigits(r)
    ensures r[0] == '0' ==> n == 0 && |r| == 1
    decreases n
  {
    if n < 10 then [DigitChar(n)] else NatToDecimal(n / 10) + [DigitChar(n % 10)]
  }

  /** Value of a run of ASCII digits (no sign). */
  function DigitsValue(s: string): nat
    requires AllDigits(s)
  {
    if |s| == 0 then 0 else 10 * DigitsValue(s[..|s| - 1]) + DigitValue(s[|s| - 1])
  }

  /**
   * Value of the digit run `s[d..e]`, read without taking the slice; a
   * character that is not a digit counts as 0.
   */
  function RunValue(s: string, d: nat, e: nat): nat
    requires d <= e <= |s|
    decreases e - d
  {
    if e == d then 0 else 10 * RunValue(s, d, e - 1) + (if IsDigit(s[e - 1]) then DigitValue(s[e - 1]) else 0)
  }

  /** On a run of digits `RunValue` is the value of the slice it reads. */
  lemma {:induction false} RunValueIsDigitsValue(s: string, d: nat, e: nat)
    requires d <= e <= |s|
    requires forall k :: d <= k < e ==> IsDigit(s[k])
    ensures AllDigits(s[d..e]) && RunValue(s, d, e) == DigitsValue(s[d..e])
    decreases e - d
  {
    if e > d {
      RunValueIsDigitsValue(s, d, e - 1);
      assert s[d..e][..e - d - 1] == s[d..e - 1];
    }
  }

  /** A digit run copied into `s` at offset `c` has the same value there. */
  lemma {:induction false} RunValueShift(s: string, t: string, c: nat, d: nat, e: nat)
    requires d <= e <= |t| && c + e <= |s|
    requires forall i :: d <= i < e ==> s[c + i] == t[i]
    ensures RunValue(s, c + d, c + e) == RunValue(t, d, e)
    decreases e - d
  {
    if e > d {
      RunValueShift(s, t, c, d, e - 1);
    }
  }

  lemma {:induction false} NatDecimalRoundTrip(n: nat)
    ensures DigitsValue(NatToDecimal(n)) == n
    decreases n
  {
    if n >= 10 {
      NatDecimalRoundTrip(n / 10);
      var r := NatToDecimal(n);
      assert r[..|r| - 1] == NatToDecimal(n / 10);
    }
  }

  /** Python's `str(i)` for an `int`. */
  function IntToDecimal(i: int): (r: string)
    ensures |r| >= 1
    ensures forall k :: 0 <= k < |r| ==> IsDigit(r[k]) || r[k] == '-'
    ensures forall k :: 0 <= k < |r| ==> !IsPySpace(r[k]) && !IsJsSpace(r[k])
  {
    if i < 0 then "-" + NatToDecimal(-i) else NatToDecimal(i)
  }

  /** A sign-free run of one or more ASCII digits read as a number. */
  function ParseNat(s: string): (r: Option<nat>)
    ensures r.Some? <==> |s| > 0 && AllDigits(s)
  {
    if |s| > 0 && AllDigits(s) then Some(DigitsValue(s)) else None
  }

  /**
   * Python's `int(s)` on a string: surrounding whitespace, an optional sign,
   * then one or more digits; anything else raises `ValueError` (here `None`).
   * Underscore separators and non-ASCII digits are not modelled.
   */
  function ParsePyInt(s: string): (r: Option<int>)
    ensures r.Some? ==> |PyStrip(s)| > 0
  {
    var t := PyStrip(s);
    if |t| > 0 && (t[0] == '-' || t[0] == '+') then
      match ParseNat(t[1..])
      case None => None
      case Some(n) => Some(if t[0] == '-' then 0 - n as int else n as int)
    else
      match ParseNat(t)
      case None => None
      case Some(n) => Some(n)
  }

  /**
   * `int()` accepts exactly an optional sign followed by one or more digits,
   * once the blanks around it are stripped, and a '-' negates the value of
   * the digits; blanks around the text change nothing.
   */
  lemma ParsePyIntSpec(s: string)
    ensures var t := PyStrip(s);
      var signed := |t| > 0 && (t[0] == '-' || t[0] == '+');
      var d := if signed then t[1..] else t;
      && (ParsePyInt(s).Some? <==> |d| > 0 && AllDigits(d))
      && (ParsePyInt(s).Some? ==> ParsePyInt(s).value == if signed && t[0] == '-' then -(DigitsValue(d) as int) else DigitsValue(d) as int)
    ensures ParsePyInt(PyStrip(s)) == ParsePyInt(s)
  {
    PyStripIdempotent(s);
  }

  /** `int(str(i)) == i` for every integer. */
  lemma IntDecimalRoundTrip(i: int)
    ensures ParsePyInt(IntToDecimal(i)) == Some(i)
  {
    var r := IntToDecimal(i);
    assert PyStrip(r) == r by {
      StripByNoEdges(r, PySpace);
    }
    if i < 0 {
      var d := NatToDecimal(-i);
      assert ParseNat(d) == Some(-i) by {
        NatDecimalRoundTrip(-i);
      }
      assert r[0] == '-' && r[1..] == d;
    } else {
      var d := NatToDecimal(i);
      assert ParseNat(d) == Some(i) by {
        NatDecimalRoundTrip(i);
      }
      assert r == d && IsDigit(r[0]);
    }
  }

  /** Concatenation regrouped: the solver does not regroup on its own. */
  lemma ConcatAssoc<T>(a: seq<T>, b: seq<T>, c: seq<T>)
    ensures a + b + c == a + (b + c)
  {
  }

  lemma ConsAssoc<T>(a: T, R: seq<T>, Y: seq<T>)
    ensures [a] + (R + Y) == [a] + R + Y
  {
  }

  // ---------------------------------------------------------------------
  // Leftmost search over per-position matches
  // ---------------------------------------------------------------------

  /** The first present entry at or after `p`: what a leftmost regex search returns, given the match at each position. */
  function FirstSome<T>(ms: seq<Option<T>>, p: nat): Option<T>
    decreases |ms| - p
  {
    if p >= |ms| then None
    else if ms[p].Some? then ms[p]
    else FirstSome(ms, p + 1)
  }

  /** The search returns an entry at or after `p`, and nothing only when every entry from `p` is absent. */
  lemma {:induction false} FirstSomeSpec<T>(ms: seq<Option<T>>, p: nat)
    ensures var r := FirstSome(ms, p);
      && (r.Some? ==> exists q :: p <= q < |ms| && ms[q] == r)
      && (r.None? <==> forall q :: p <= q < |ms| ==> ms[q].None?)
    decreases |ms| - p
  {
    if p < |ms| && ms[p].None? {
      FirstSomeSpec(ms, p + 1);
    }
  }

  /** The leftmost present entry wins. */
  lemma {:induction false} FirstSomeAt<T>(ms: seq<Option<T>>, p: nat, q: nat)
    requires p <= q < |ms|
    requires forall j :: p <= j < q ==> ms[j].None?
    requires ms[q].Some?
    ensures FirstSome(ms, p) == ms[q]
    decreases q - p
  {
    if p < q {
      FirstSomeAt(ms, p + 1, q);
    }
  }

  /** Absent entries do not change where the search ends up. */
  lemma {:induction false} FirstSomeSkip<T>(ms: seq<Option<T>>, from: nat, stop: nat)
    requires from <= stop
    requires forall j :: from <= j < stop && j < |ms| ==> ms[j].None?
    ensures FirstSome(ms, from) == FirstSome(ms, stop)
    decreases stop - from
  {
    if from < stop {
      FirstSomeSkip(ms, from + 1, stop);
    }
  }
}
