/**
 * Reading and writing the `planner.backend` setting of a YAML settings
 * file, line by line, as the extension's unified view does: no YAML parser,
 * only the regular expressions the view applies to each line.
 */
module PlannerConfig {
  import opened Wrappers
  import opened Text
  import opened ViewHelpers

  // ---------------------------------------------------------------------
  // Lines: `content.split(/\r?\n/)`
  // ---------------------------------------------------------------------

  /** One trailing carriage return removed. */
  function DropCr(s: string): string {
    if |s| > 0 && s[|s| - 1] == '\r' then s[..|s| - 1] else s
  }

  /** Every piece but the last loses the carriage return before its line feed. */
  function DropCrs(ps: seq<string>): (r: seq<string>)
    ensures |r| == |ps|
  {
    seq(|ps|, k requires 0 <= k < |ps| => if k < |ps| - 1 then DropCr(ps[k]) else ps[k])
  }

  /** `s.split(/\r?\n/)`: the pieces between line feeds, each without the carriage return before its line feed. */
  function SplitCrLf(s: string): (r: seq<string>)
    ensures |r| >= 1
  {
    DropCrs(Split(s, '\n'))
  }

  /** Splitting at a separator splits both sides. */
  lemma {:induction false} SplitAppend(x: string, y: string, sep: char)
    ensures Split(x + [sep] + y, sep) == Split(x, sep) + Split(y, sep)
    decreases |x|
  {
    IndexOfFirst(x, sep);
    match IndexOf(x, sep)
    case None =>
      SplitCons(x, y, sep);
    case Some(k) =>
      SplitAppend(x[k + 1..], y, sep);
      SplitAppendStep(x, y, sep, k);
  }

  /** One step of `SplitAppend`: the first piece of `x` leads both sides. */
  lemma SplitAppendStep(x: string, y: string, sep: char, k: nat)
    requires IndexOf(x, sep) == Some(k)
    requires Split(x[k + 1..] + [sep] + y, sep) == Split(x[k + 1..], sep) + Split(y, sep)
    ensures Split(x + [sep] + y, sep) == Split(x, sep) + Split(y, sep)
  {
    SplitFirst(x, sep, k);
    SplitFirstExtend(x, [sep] + y, sep, k);
    ConcatAssoc(x, [sep], y);
    ConcatAssoc(x[k + 1..], [sep], y);
    ConsAssoc(x[..k], Split(x[k + 1..], sep), Split(y, sep));
  }

  /** The first piece of `x` is also the first piece of `x + w`. */
  lemma SplitFirstExtend(x: string, w: string, sep: char, k: nat)
    requires IndexOf(x, sep) == Some(k)
    ensures Split(x + w, sep) == [x[..k]] + Split(x[k + 1..] + w, sep)
  {
    IndexOfExtend(x, w, sep, k);
    SplitFirst(x + w, sep, k);
  }

  /** Characters without the separator extend the last piece. */
  lemma {:induction false} SplitExtendLast(x: string, w: string, sep: char)
    requires sep !in w
    ensures var X := Split(x, sep);
      Split(x + w, sep) == X[..|X| - 1] + [X[|X| - 1] + w]
    decreases |x|
  {
    IndexOfFirst(x, sep);
    match IndexOf(x, sep)
    case None =>
      assert sep !in x + w;
    case Some(k) =>
      SplitExtendLast(x[k + 1..], w, sep);
      SplitFirst(x, sep, k);
      SplitFirstExtend(x, w, sep, k);
      ExtendLastCons(x[..k], Split(x[k + 1..], sep), w);
  }

  /** Extending the last piece of a list commutes with putting a piece in front. */
  lemma ExtendLastCons(a: string, R: seq<string>, w: string)
    requires |R| >= 1
    ensures var X := [a] + R;
      [a] + (R[..|R| - 1] + [R[|R| - 1] + w]) == X[..|X| - 1] + [X[|X| - 1] + w]
  {
    var X := [a] + R;
    assert X[..|X| - 1] == [a] + R[..|R| - 1];
  }

  /** Splitting a longer string keeps every piece of the shorter one but the last, which it extends. */
  lemma SplitPrefix(x: string, w: string, sep: char) returns (j: nat)
    ensures j <= |w|
    ensures var X := Split(x, sep);
      var C := Split(x + w, sep);
      && |X| <= |C| && X[..|X| - 1] == C[..|X| - 1] && C[|X| - 1] == X[|X| - 1] + w[..j]
  {
    IndexOfFirst(w, sep);
    match IndexOf(w, sep)
    case None =>
      j := |w|;
      SplitExtendLast(x, w, sep);
      assert w[..j] == w;
    case Some(k) =>
      j := k;
      assert w == w[..k] + [sep] + w[k + 1..];
      assert x + w == (x + w[..k]) + [sep] + w[k + 1..];
      SplitAppend(x + w[..k], w[k + 1..], sep);
      SplitExtendLast(x, w[..k], sep);
  }

  /** The last piece is a suffix. */
  lemma {:induction false} SplitLastSuffix(s: string, sep: char)
    ensures var ps := Split(s, sep); IsSuffix(ps[|ps| - 1], s)
    decreases |s|
  {
    match IndexOf(s, sep)
    case None =>
    case Some(k) =>
      var t := s[k + 1..];
      var R := Split(t, sep);
      SplitLastSuffix(t, sep);
      SplitFirst(s, sep, k);
      LastOfCons(s[..k], R);
      assert IsSuffix(t, s);
      SuffixTransitive(s, t, R[|R| - 1]);
  }

  /** The last piece after a leading piece is the last of the rest. */
  lemma LastOfCons(a: string, R: seq<string>)
    requires |R| >= 1
    ensures ([a] + R)[|[a] + R| - 1] == R[|R| - 1]
  {
  }

  /** Dropping carriage returns piece by piece, over two lists of pieces. */
  lemma DropCrsAppend(X: seq<string>, Y: seq<string>)
    requires |X| >= 1 && |Y| >= 1
    requires X[|X| - 1] == [] || X[|X| - 1][|X[|X| - 1]| - 1] != '\r'
    ensures DropCrs(X + Y) == DropCrs(X) + DropCrs(Y)
  {
    assert DropCr(X[|X| - 1]) == X[|X| - 1];
    forall k | 0 <= k < |X| + |Y| ensures DropCrs(X + Y)[k] == (DropCrs(X) + DropCrs(Y))[k] {
      if k >= |X| {
        assert (X + Y)[k] == Y[k - |X|];
      }
    }
  }

  /** A carriage return added to the last piece before more pieces is dropped again. */
  lemma DropCrsExtend(X: seq<string>, Y: seq<string>)
    requires |X| >= 1 && |Y| >= 1
    ensures DropCrs(X[..|X| - 1] + [X[|X| - 1] + ['\r']] + Y) == DropCrs(X) + DropCrs(Y)
  {
    var XR := X[..|X| - 1] + [X[|X| - 1] + ['\r']];
    forall k | 0 <= k < |XR| + |Y| ensures DropCrs(XR + Y)[k] == (DropCrs(X) + DropCrs(Y))[k] {
      if k >= |XR| {
        assert (XR + Y)[k] == Y[k - |XR|];
      } else if k == |X| - 1 {
        assert DropCr(X[|X| - 1] + ['\r']) == X[|X| - 1];
      }
    }
  }

  /** Splitting at a line feed splits both sides, when the first does not end with '\r'. */
  lemma SplitLfConcat(x: string, y: string)
    requires x == [] || x[|x| - 1] != '\r'
    ensures SplitCrLf(x + "\n" + y) == SplitCrLf(x) + SplitCrLf(y)
  {
    var X := Split(x, '\n');
    SplitAppend(x, y, '\n');
    LastPieceNoCr(x);
    DropCrsAppend(X, Split(y, '\n'));
  }

  /** Splitting at "\r\n" splits both sides. */
  lemma SplitCrLfPairConcat(x: string, y: string)
    ensures SplitCrLf(x + "\r\n" + y) == SplitCrLf(x) + SplitCrLf(y)
  {
    PairSplit(x, y);
    DropCrsExtend(Split(x, '\n'), Split(y, '\n'));
  }

  /** Splitting at the line feed of "\r\n" leaves the carriage return on the last piece of `x`. */
  lemma PairSplit(x: string, y: string)
    ensures var X := Split(x, '\n');
      Split(x + "\r\n" + y, '\n') == X[..|X| - 1] + [X[|X| - 1] + ['\r']] + Split(y, '\n')
  {
    var xr := x + ['\r'];
    assert x + "\r\n" + y == xr + ['\n'] + y;
    SplitAppend(xr, y, '\n');
    SplitExtendLast(x, ['\r'], '\n');
  }

  /** Splitting at either line terminator splits both sides, when the first does not end with '\r'. */
  lemma SplitCrLfConcat(x: string, y: string, nl: string)
    requires nl == "\n" || nl == "\r\n"
    requires x == [] || x[|x| - 1] != '\r'
    ensures SplitCrLf(x + nl + y) == SplitCrLf(x) + SplitCrLf(y)
  {
    if nl == "\n" { SplitLfConcat(x, y); } else { SplitCrLfPairConcat(x, y); }
  }

  /** A line without '\r' or '\n' is one piece. */
  lemma SplitCrLfSingle(line: string)
    requires '\n' !in line
    ensures SplitCrLf(line) == [line]
  {
  }

  /** Lines without '\r' and '\n', joined by either line terminator, split back into those lines. */
  lemma {:induction false} SplitCrLfJoin(lines: seq<string>, nl: string)
    requires |lines| >= 1 && (nl == "\n" || nl == "\r\n")
    requires forall k :: 0 <= k < |lines| ==> '\n' !in lines[k] && '\r' !in lines[k]
    ensures SplitCrLf(Join(lines, nl)) == lines
    decreases |lines|
  {
    SplitCrLfSingle(lines[0]);
    if |lines| > 1 {
      SplitCrLfJoin(lines[1..], nl);
      assert lines[0] == [] || lines[0][|lines[0]| - 1] != '\r';
      SplitCrLfConcat(lines[0], Join(lines[1..], nl), nl);
    }
  }

  /** No character `.` refuses to match. */
  predicate NoLineTerminator(s: string) {
    forall i :: 0 <= i < |s| ==> !IsJsLineTerminator(s[i])
  }

  /** Every line break is "\n" or "\r\n" and there is no U+2028 or U+2029. */
  predicate PlainLines(content: string) {
    forall k :: 0 <= k < |SplitCrLf(content)| ==> NoLineTerminator(SplitCrLf(content)[k])
  }

  // ---------------------------------------------------------------------
  // The per-line regular expressions
  // ---------------------------------------------------------------------

  // `line.match(/^\s*/)[0].length`: the length of the leading whitespace.
  function Indent(line: string): nat { Span(line, JsSpace) }

  /**
   * A blank line or a comment line: nothing but whitespace, or '#' first
   * after the leading whitespace.  `SkippedIsTrimTest` shows this is
   * `!trimmed || trimmed.startsWith('#')` for `trimmed = line.trim()`.
   */
  predicate Skipped(line: string) {
    var n := Indent(line);
    n == |line| || line[n] == '#'
  }

  /** `^\s*key\s*:` matches; the position just after the colon. */
  function KeyColonEnd(line: string, key: string): (r: Option<nat>)
    ensures r.Some? ==> Indent(line) + |key| < r.value <= |line| && OccursAt(line, key, Indent(line))
  {
    var i0 := Indent(line);
    if !OccursAt(line, key, i0) then None
    else
      var i1 := i0 + |key| + RunFrom(line, i0 + |key|, JsSpace);
      if i1 < |line| && line[i1] == ':' then Some(i1 + 1) else None
  }

  /** The rest of the line from `j` matches `\s*(?:#.*)?$`. */
  predicate CommentTailAt(line: string, j: nat)
    requires j <= |line|
  {
    var k := j + RunFrom(line, j, JsSpace);
    k == |line| || (line[k] == '#' && NoLineTerminator(line[k + 1..]))
  }

  /** `/^\s*planner\s*:\s*(?:#.*)?$/.test(line)`. */
  predicate IsPlannerHeader(line: string) {
    match KeyColonEnd(line, "planner")
    case None => false
    case Some(j) => CommentTailAt(line, j)
  }

  // `/^\s*backend\s*:\s*/.test(line)`: the line sets the backend key.
  predicate HasBackendKey(line: string) { KeyColonEnd(line, "backend").Some? }

  /**
   * Where the lazy capture `(.+?)` started before position `e - 1` ends:
   * the first end from `e` on after which `\s*(?:#.*)?$` matches, as long
   * as no character `.` refuses was taken.
   */
  function CaptureEnd(line: string, e: nat): (r: Option<nat>)
    requires 0 < e <= |line|
    ensures r.Some? ==> e <= r.value <= |line| && CommentTailAt(line, r.value)
    decreases |line| - e
  {
    if IsJsLineTerminator(line[e - 1]) then None
    else if CommentTailAt(line, e) then Some(e)
    else if e == |line| then None
    else CaptureEnd(line, e + 1)
  }

  /** The last position in `[lo, hi)` whose character `.` matches. */
  function LastNonTerminator(line: string, lo: nat, hi: nat): (r: Option<nat>)
    requires lo <= hi <= |line|
    ensures r.Some? ==> lo <= r.value < hi && !IsJsLineTerminator(line[r.value])
    decreases hi
  {
    if hi == lo then None
    else if !IsJsLineTerminator(line[hi - 1]) then Some(hi - 1)
    else LastNonTerminator(line, lo, hi - 1)
  }

  /**
   * `/^\s*backend\s*:\s*(.+?)\s*(?:#.*)?$/.exec(line)`, then
   * `stripQuotes(match[1].trim())`.  The whitespace after the colon is taken
   * greedily; when the line ends there, the regex backtracks into it and
   * captures a single whitespace character.
   */
  function BackendValue(line: string): Option<string> {
    match KeyColonEnd(line, "backend")
    case None => None
    case Some(j) => CapturedAfter(line, j)
  }

  /** `stripQuotes(match[1].trim())` for the capture after a colon that ends at `j`. */
  function CapturedAfter(line: string, j: nat): Option<string>
    requires j <= |line|
  {
    match CaptureSpan(line, j)
    case Some((a, b)) => Some(StripQuotes(JsTrim(line[a..b])))
    case None => None
  }

  /** Where `match[1]` lies: after the whitespace, or, when only whitespace follows, the last character `.` takes. */
  function CaptureSpan(line: string, j: nat): (r: Option<(nat, nat)>)
    requires j <= |line|
    ensures r.Some? ==> j <= r.value.0 < r.value.1 <= |line|
  {
    var s0 := j + RunFrom(line, j, JsSpace);
    if s0 < |line| then
      match CaptureEnd(line, s0 + 1)
      case Some(e) => Some((s0, e))
      case None => None
    else
      match LastNonTerminator(line, j, |line|)
      case Some(k) => Some((k, k + 1))
      case None => None
  }

  // ---------------------------------------------------------------------
  // extractPlannerBackend
  // ---------------------------------------------------------------------

  /** Outside the `planner:` block, or inside it below a header at the given indent. */
  datatype Scan = Outside | Inside(plannerIndent: nat)

  datatype Step = Found(value: string) | Continue(state: Scan)

  /** What one line does to the scan. */
  function ExtractStep(line: string, st: Scan): Step {
    if Skipped(line) then Continue(st)
    else match st
      case Outside => if IsPlannerHeader(line) then Continue(Inside(Indent(line))) else Continue(Outside)
      case Inside(pi) =>
        if Indent(line) <= pi then Continue(Outside)
        else match BackendValue(line)
          case Some(v) => Found(v)
          case None => Continue(st)
  }

  /** The scan over a list of lines, stopping at the first value found. */
  function Walk(lines: seq<string>, st: Scan): Step
    decreases |lines|
  {
    if lines == [] then Continue(st)
    else match ExtractStep(lines[0], st)
      case Found(v) => Found(v)
      case Continue(next) => Walk(lines[1..], next)
  }

  /** The backend configured in `content`, if any. */
  function PlannerBackend(content: string): Option<string> {
    if content == "" then None
    else match Walk(SplitCrLf(content), Outside)
      case Found(v) => Some(v)
      case Continue(_) => None
  }

  /** Scanning two lists of lines is scanning the first, then the second from where it left off. */
  lemma {:induction false} WalkAppend(xs: seq<string>, ys: seq<string>, st: Scan)
    ensures Walk(xs + ys, st) == match Walk(xs, st)
      case Found(v) => Found(v)
      case Continue(next) => Walk(ys, next)
    decreases |xs|
  {
    if xs != [] {
      assert (xs + ys)[0] == xs[0];
      assert (xs + ys)[1..] == xs[1..] + ys;
      match ExtractStep(xs[0], st)
      case Found(v) =>
      case Continue(next) => WalkAppend(xs[1..], ys, next);
    } else {
      assert xs + ys == ys;
    }
  }

  /** `extractPlannerBackend`. */
  method ExtractPlannerBackend(content: string) returns (r: Option<string>)
    ensures r == PlannerBackend(content)
  {
    if content == "" {
      return None;
    }
    var lines := SplitCrLf(content);
    var inPlanner := false;
    var plannerIndent := 0;
    var i := 0;
    while i < |lines|
      invariant 0 <= i <= |lines|
      invariant Walk(lines, Outside) == Walk(lines[i..], if inPlanner then Inside(plannerIndent) else Outside)
    {
      var line := lines[i];
      assert lines[i..][1..] == lines[i + 1..];
      if Skipped(line) {
        i := i + 1;
        continue;
      }
      if !inPlanner {
        if IsPlannerHeader(line) {
          inPlanner := true;
          plannerIndent := Indent(line);
        }
        i := i + 1;
        continue;
      }
      var indent := Indent(line);
      if indent <= plannerIndent {
        inPlanner := false;
        i := i + 1;
        continue;
      }
      var backend := BackendValue(line);
      if backend.Some? {
        return backend;
      }
      i := i + 1;
    }
    return None;
  }

  // ---------------------------------------------------------------------
  // updatePlannerBackend
  // ---------------------------------------------------------------------

  /** `base.includes('\r\n') ? '\r\n' : '\n'`. */
  function NewlineOf(content: string): string {
    if Contains(content, "\r\n") then "\r\n" else "\n"
  }

  /** The first header line at or after `i`. */
  function HeaderFrom(lines: seq<string>, i: nat): (r: Option<nat>)
    requires i <= |lines|
    ensures r.Some? ==>
      && i <= r.value < |lines| && IsPlannerHeader(lines[r.value])
      && forall j :: i <= j < r.value ==> !IsPlannerHeader(lines[j])
    ensures r.None? ==> forall j :: i <= j < |lines| ==> !IsPlannerHeader(lines[j])
    decreases |lines| - i
  {
    if i == |lines| then None
    else if IsPlannerHeader(lines[i]) then Some(i)
    else HeaderFrom(lines, i + 1)
  }

  /** A line the section scan passes over: blank, a comment, or indented under the header without the backend key. */
  predicate PassedOver(line: string, plannerIndent: nat) {
    KindOf(line, plannerIndent) == Blank || KindOf(line, plannerIndent) == Nested
  }

  /** Where the section scan stopped: the backend line to replace, or where to insert one. */
  datatype SectionScan = SectionScan(backendIndex: Option<nat>, insertIndex: nat)

  /** How the section scan treats a line of the `planner:` block. */
  datatype LineKind = Blank | Dedent | BackendKeyLine | Nested

  function KindOf(line: string, plannerIndent: nat): LineKind {
    if Skipped(line) then Blank
    else if Indent(line) <= plannerIndent then Dedent
    else if HasBackendKey(line) then BackendKeyLine
    else Nested
  }

  /**
   * The scan of the `planner:` block from line `i`: it stops at the first
   * line indented under the header that sets the backend key, or before the
   * first line that is not, skipping blank and comment lines; the insertion
   * point follows the last line of the block seen so far.
   */
  function ScanSection(lines: seq<string>, i: nat, plannerIndent: nat, insert: nat): (r: SectionScan)
    requires insert <= i <= |lines|
    ensures insert <= r.insertIndex <= |lines|
    ensures r.backendIndex.Some? ==> r.insertIndex == r.backendIndex.value + 1
    decreases |lines| - i
  {
    if i == |lines| then SectionScan(None, insert)
    else match KindOf(lines[i], plannerIndent)
      case Blank => ScanSection(lines, i + 1, plannerIndent, insert)
      case Dedent => SectionScan(None, i)
      case BackendKeyLine => SectionScan(Some(i), i + 1)
      case Nested => ScanSection(lines, i + 1, plannerIndent, i + 1)
  }

  /**
   * The scan stops at a backend line of the block, with the insertion
   * point after it, or at an insertion point not before `insert`; every
   * line it passed over is blank, a comment, or indented without the key.
   */
  lemma {:induction false} ScanSectionSpec(lines: seq<string>, i: nat, plannerIndent: nat, insert: nat)
    requires insert <= i <= |lines|
    ensures var r := ScanSection(lines, i, plannerIndent, insert);
      && (r.backendIndex.Some? ==>
            var k := r.backendIndex.value;
            && i <= k < |lines| && KindOf(lines[k], plannerIndent) == BackendKeyLine
            && forall j :: i <= j < k ==> PassedOver(lines[j], plannerIndent))
      && (r.backendIndex.None? ==>
            forall j :: i <= j < r.insertIndex ==> PassedOver(lines[j], plannerIndent))
    decreases |lines| - i
  {
    if i < |lines| && PassedOver(lines[i], plannerIndent) {
      var next := if KindOf(lines[i], plannerIndent) == Blank then insert else i + 1;
      ScanSectionSpec(lines, i + 1, plannerIndent, next);
      var r := ScanSection(lines, i + 1, plannerIndent, next);
      assert ScanSection(lines, i, plannerIndent, insert) == r;
      var stop := if r.backendIndex.Some? then r.backendIndex.value else r.insertIndex;
      forall j | i <= j < stop ensures PassedOver(lines[j], plannerIndent) {
      }
    }
  }

  /** `' '.repeat(n)`. */
  function Spaces(n: nat): (r: string)
    ensures |r| == n && forall i :: 0 <= i < n ==> r[i] == ' '
  {
    seq(n, _ => ' ')
  }

  /** `${indentPrefix}backend: ${backend}`. */
  function BackendLine(indentPrefix: string, backend: string): string {
    indentPrefix + "backend: " + backend
  }

  /**
   * The lines with the backend line the section scan found replaced, or
   * with one inserted where the scan stopped, for a header at indent `pi`.
   */
  function WithBackendLine(lines: seq<string>, scan: SectionScan, pi: nat, backend: string): seq<string>
    requires scan.insertIndex <= |lines|
    requires scan.backendIndex.Some? ==> scan.backendIndex.value < |lines|
  {
    match scan.backendIndex
    case Some(k) => lines[k := BackendLine(lines[k][..Indent(lines[k])], backend)]
    case None => InsertLine(lines, scan.insertIndex, BackendLine(Spaces(pi + 2), backend))
  }

  /** `lines.splice(pos, 0, line)`. */
  function InsertLine(lines: seq<string>, pos: nat, line: string): seq<string>
    requires pos <= |lines|
  {
    lines[..pos] + [line] + lines[pos..]
  }

  /** What `updatePlannerBackend(content, backend)` returns. */
  function UpdatedPlannerConfig(content: string, backend: string): string {
    var nl := NewlineOf(content);
    var lines := SplitCrLf(content);
    match HeaderFrom(lines, 0)
    case None =>
      var trimmed := JsTrimEnd(content);
      (if trimmed != "" then trimmed + nl + nl else "") + ("planner:" + nl + "  backend: " + backend + nl)
    case Some(h) => RewrittenBlock(lines, h, backend, nl)
  }

  /** The text once the block headed at `h` has its backend line set, joined and ending in a newline. */
  function RewrittenBlock(lines: seq<string>, h: nat, backend: string, nl: string): string
    requires h < |lines|
  {
    var pi := Indent(lines[h]);
    var joined := Join(WithBackendLine(lines, ScanSection(lines, h + 1, pi, h + 1), pi, backend), nl);
    if IsSuffix(nl, joined) then joined else joined + nl
  }

  /** The first loop of `updatePlannerBackend`: the first header line and its indent, or -1. */
  method FindPlannerHeader(lines: seq<string>) returns (plannerIndex: int, plannerIndent: nat)
    ensures plannerIndex == -1 <==> HeaderFrom(lines, 0).None?
    ensures plannerIndex != -1 ==>
      && plannerIndex == HeaderFrom(lines, 0).value as int
      && plannerIndent == Indent(lines[plannerIndex])
  {
    for i := 0 to |lines|
      invariant forall j :: 0 <= j < i ==> !IsPlannerHeader(lines[j])
    {
      if IsPlannerHeader(lines[i]) {
        return i, Indent(lines[i]);
      }
    }
    return -1, 0;
  }

  /** The scan stops at a line of the block that is not indented under the header. */
  lemma ScanStopsAt(lines: seq<string>, i: nat, plannerIndent: nat, insert: nat)
    requires insert <= i < |lines| && KindOf(lines[i], plannerIndent) == Dedent
    ensures ScanSection(lines, i, plannerIndent, insert) == SectionScan(None, i)
  {
  }

  /** The scan stops at a backend line of the block, inserting after it. */
  lemma ScanFindsAt(lines: seq<string>, i: nat, plannerIndent: nat, insert: nat)
    requires insert <= i < |lines| && KindOf(lines[i], plannerIndent) == BackendKeyLine
    ensures ScanSection(lines, i, plannerIndent, insert) == SectionScan(Some(i), i + 1)
  {
  }

  /** The scan passes over a blank, comment or nested line; a nested one moves the insertion point after it. */
  lemma ScanPassesAt(lines: seq<string>, i: nat, plannerIndent: nat, insert: nat, next: nat)
    requires insert <= i < |lines|
    requires KindOf(lines[i], plannerIndent) == Blank || KindOf(lines[i], plannerIndent) == Nested
    requires next == if KindOf(lines[i], plannerIndent) == Nested then i + 1 else insert
    ensures ScanSection(lines, i, plannerIndent, insert) == ScanSection(lines, i + 1, plannerIndent, next)
  {
  }

  /** The second loop of `updatePlannerBackend`: the backend line (or -1) and the insertion point. */
  method ScanPlannerSection(lines: seq<string>, h: nat, plannerIndent: nat) returns (backendIndex: int, insertIndex: nat)
    requires h < |lines|
    ensures ScanSection(lines, h + 1, plannerIndent, h + 1)
      == SectionScan(if backendIndex >= 0 then Some(backendIndex as nat) else None, insertIndex)
  {
    insertIndex := h + 1;
    var i := h + 1;
    ghost var scan := ScanSection(lines, h + 1, plannerIndent, h + 1);
    while i < |lines|
      invariant insertIndex <= i <= |lines|
      invariant ScanSection(lines, i, plannerIndent, insertIndex) == scan
    {
      var stop, found, next := ScanLine(lines, i, plannerIndent, insertIndex);
      if stop {
        return found, next;
      }
      insertIndex := next;
      i := i + 1;
    }
    backendIndex := -1;
  }

  /** One pass of the second loop: stop at a dedented or backend line, or move on, possibly moving the insertion point. */
  method ScanLine(lines: seq<string>, i: nat, plannerIndent: nat, insertIndex: nat) returns (stop: bool, found: int, next: nat)
    requires insertIndex <= i < |lines|
    ensures stop ==>
      ScanSection(lines, i, plannerIndent, insertIndex) == SectionScan(if found >= 0 then Some(found as nat) else None, next)
    ensures !stop ==> next <= i + 1 && ScanSection(lines, i, plannerIndent, insertIndex) == ScanSection(lines, i + 1, plannerIndent, next)
  {
    var kind := KindOf(lines[i], plannerIndent);
    if kind == Dedent {
      ScanStopsAt(lines, i, plannerIndent, insertIndex);
      return true, -1, i;
    } else if kind == BackendKeyLine {
      ScanFindsAt(lines, i, plannerIndent, insertIndex);
      return true, i, i + 1;
    }
    next := if kind == Nested then i + 1 else insertIndex;
    ScanPassesAt(lines, i, plannerIndent, insertIndex, next);
    return false, -1, next;
  }

  /** `updatePlannerBackend`. */
  method UpdatePlannerBackend(content: string, backend: string) returns (updated: string)
    ensures updated == UpdatedPlannerConfig(content, backend)
  {
    var newline := if Contains(content, "\r\n") then "\r\n" else "\n";
    var lines := SplitCrLf(content);
    var plannerIndex, plannerIndent := FindPlannerHeader(lines);
    if plannerIndex == -1 {
      UpdatedAppends(content, backend);
      var trimmed := JsTrimEnd(content);
      var prefix := if trimmed != "" then trimmed + newline + newline else "";
      return prefix + ("planner:" + newline + "  backend: " + backend + newline);
    }
    UpdatedRewrites(content, backend, plannerIndex);
    updated := RewritePlannerBlock(lines, plannerIndex, plannerIndent, backend, newline);
  }

  /** The lines of `updatePlannerBackend` after the header was found: set the backend line, join, end with a newline. */
  method RewritePlannerBlock(lines: seq<string>, h: nat, plannerIndent: nat, backend: string, newline: string) returns (updated: string)
    requires h < |lines| && plannerIndent == Indent(lines[h])
    ensures updated == RewrittenBlock(lines, h, backend, newline)
  {
    var rewritten := SetBackendLine(lines, h, plannerIndent, backend);
    updated := Join(rewritten, newline);
    if !IsSuffix(newline, updated) {
      updated := updated + newline;
    }
  }

  /** The part of `updatePlannerBackend` that replaces or inserts the backend line of the block at `h`. */
  method SetBackendLine(lines: seq<string>, h: nat, plannerIndent: nat, backend: string) returns (updated: seq<string>)
    requires h < |lines| && plannerIndent == Indent(lines[h])
    ensures updated == WithBackendLine(lines, ScanSection(lines, h + 1, plannerIndent, h + 1), plannerIndent, backend)
  {
    var backendIndex, insertIndex := ScanPlannerSection(lines, h, plannerIndent);
    var indentPrefix := if backendIndex >= 0 then lines[backendIndex][..Indent(lines[backendIndex])] else Spaces(plannerIndent + 2);
    var backendLine := indentPrefix + "backend: " + backend;
    if backendIndex >= 0 {
      updated := lines[backendIndex := backendLine];
    } else {
      updated := lines[..insertIndex] + [backendLine] + lines[insertIndex..];
    }
  }

  // ---------------------------------------------------------------------
  // Reading back what updatePlannerBackend wrote
  // ---------------------------------------------------------------------

  /** A trimmed valid spec is non-empty and free of whitespace. */
  lemma ValidSpecNoSpace(b: string)
    requires IsValidBackendSpec(b) && JsTrim(b) == b
    ensures b != [] && NoJsSpace(b)
  {
    var k := IndexOf(b, ':').value;
    assert b == b[..k] + [b[k]] + b[k + 1..];
    forall i | 0 <= i < |b| ensures !IsJsSpace(b[i]) {
      if i < k { assert b[i] == b[..k][i]; }
      else if i > k { assert b[i] == b[k + 1..][i - k - 1]; }
    }
  }

  /** `Skipped` is the test on the trimmed line, in both directions. */
  lemma SkippedIsTrimTest(line: string)
    ensures Skipped(line) <==> (JsTrim(line) == [] || JsTrim(line)[0] == '#')
  {
    var n := Indent(line);
    var t := line[n..];
    var e := SpanEnd(t, JsSpace);
    assert JsTrim(line) == t[..|t| - e];
    if n < |line| {
      SpanEndChars(t, JsSpace);
      assert !InClass(t[0], JsSpace);
      assert e < |t|;
      assert JsTrim(line)[0] == line[n];
    }
  }

  /** A header line is not skipped. */
  lemma HeaderNotSkipped(line: string)
    requires IsPlannerHeader(line)
    ensures !Skipped(line)
  {
    var n := Indent(line);
    assert line[n..n + 7] == "planner";
    assert line[n] == line[n..n + 7][0];
  }

  /** The whitespace-free tail from `s0` on is taken whole by the lazy capture. */
  lemma {:induction false} CaptureToEnd(line: string, s0: nat, e: nat)
    requires s0 < e <= |line|
    requires forall j :: s0 <= j < |line| ==> !IsJsSpace(line[j]) && line[j] != '#'
    ensures CaptureEnd(line, e) == Some(|line|)
    decreases |line| - e
  {
    assert !IsJsLineTerminator(line[e - 1]);
    if e < |line| {
      assert RunFrom(line, e, JsSpace) == 0;
      CaptureToEnd(line, s0, e + 1);
    }
  }

  /** `^\s*key\s*:` at a known indent and run of whitespace. */
  lemma KeyColonAt(line: string, key: string, n: nat, r: nat)
    requires Indent(line) == n && OccursAt(line, key, n) && n + |key| <= |line|
    requires RunFrom(line, n + |key|, JsSpace) == r && n + |key| + r < |line| && line[n + |key| + r] == ':'
    ensures KeyColonEnd(line, key) == Some(n + |key| + r + 1)
  {
  }

  /** The backend value once the capture's start and end are known. */
  lemma BackendValueAt(line: string, j: nat, s0: nat, e: nat)
    requires j <= s0 < |line|
    requires RunFrom(line, j, JsSpace) == s0 - j && CaptureEnd(line, s0 + 1) == Some(e)
    ensures s0 <= e <= |line| && CapturedAfter(line, j) == Some(StripQuotes(JsTrim(line[s0..e])))
  {
    CaptureSpanAt(line, j, s0, e);
  }

  /** The capture lies between the end of the whitespace and the end `CaptureEnd` finds. */
  lemma CaptureSpanAt(line: string, j: nat, s0: nat, e: nat)
    requires j <= s0 < |line|
    requires RunFrom(line, j, JsSpace) == s0 - j && CaptureEnd(line, s0 + 1) == Some(e)
    ensures CaptureSpan(line, j) == Some((s0, e))
  {
    CaptureSpanStart(line, j, s0);
  }

  /** With text after the whitespace, the capture starts there and ends where `CaptureEnd` says. */
  lemma CaptureSpanStart(line: string, j: nat, s0: nat)
    requires j <= s0 < |line| && j + RunFrom(line, j, JsSpace) == s0
    ensures CaptureSpan(line, j) == match CaptureEnd(line, s0 + 1) case Some(e) => Some((s0, e)) case None => None
  {
  }

  /** "backend: " at the indent ends the key one position before its space. */
  lemma BackendKeyAt(line: string, n: nat)
    requires Indent(line) == n && n + 9 <= |line| && line[n..n + 9] == "backend: "
    ensures KeyColonEnd(line, "backend") == Some(n + 8)
  {
    assert line[n..n + 7] == line[n..n + 9][..7] == "backend";
    RunFromExact(line, n + 7, JsSpace, 0);
    KeyColonAt(line, "backend", n, 0);
  }

  /** The key of the line `updatePlannerBackend` writes, below any whitespace indent. */
  lemma BackendLineKey(ind: string, b: string)
    requires forall i :: 0 <= i < |ind| ==> IsJsSpace(ind[i])
    requires b != [] && !IsJsSpace(b[0])
    ensures var line := BackendLine(ind, b);
      && Indent(line) == |ind| && !Skipped(line) && KeyColonEnd(line, "backend") == Some(|ind| + 8)
  {
    var line := BackendLine(ind, b);
    var n := |ind|;
    assert line[..n] == ind && line[n..n + 9] == "backend: ";
    forall i | 0 <= i < n ensures InClass(line[i], JsSpace) { assert line[i] == ind[i]; }
    SpanExact(line, JsSpace, n);
    BackendKeyAt(line, n);
  }

  /** The capture after "backend:" and one space is the whole whitespace-free rest. */
  lemma BackendLineCapture(line: string, j: nat, b: string)
    requires j < |line| && line[j] == ' ' && line[j + 1..] == b
    requires b != [] && NoJsSpace(b) && '#' !in b && !QuoteWrapped(b)
    ensures CapturedAfter(line, j) == Some(b)
  {
    forall k | j + 1 <= k < |line| ensures !IsJsSpace(line[k]) && line[k] != '#' {
      assert line[k] == b[k - j - 1];
    }
    RunFromExact(line, j, JsSpace, 1);
    CaptureToEnd(line, j + 1, j + 2);
    BackendValueAt(line, j, j + 1, |line|);
    assert line[j + 1..|line|] == b;
    StripByNoEdges(b, JsSpace);
    StripQuotesSpec('"', [], b);
  }

  /** The value of a line whose backend key ends at `j`. */
  lemma BackendValueKey(line: string, j: nat)
    requires KeyColonEnd(line, "backend") == Some(j)
    ensures HasBackendKey(line) && BackendValue(line) == CapturedAfter(line, j)
  {
  }

  /** The line `updatePlannerBackend` writes, below any whitespace indent, reads back as the backend. */
  lemma BackendLineRead(ind: string, b: string)
    requires forall i :: 0 <= i < |ind| ==> IsJsSpace(ind[i])
    requires b != [] && NoJsSpace(b) && '#' !in b && !QuoteWrapped(b)
    ensures var line := BackendLine(ind, b);
      && Indent(line) == |ind| && !Skipped(line) && HasBackendKey(line) && BackendValue(line) == Some(b)
  {
    var line := BackendLine(ind, b);
    var n := |ind|;
    BackendLineKey(ind, b);
    assert line[n + 8] == ' ' && line[n + 9..] == b;
    BackendLineCapture(line, n + 8, b);
    BackendValueKey(line, n + 8);
  }

  /** Where the scan finds the value: no header before `h`, the header at `h`, passed-over lines, then the value at `pos`. */
  predicate FoundLayout(L: seq<string>, h: nat, pos: nat, pi: nat, b: string) {
    && h < pos < |L|
    && (forall j :: 0 <= j < h ==> !IsPlannerHeader(L[j]))
    && IsPlannerHeader(L[h]) && Indent(L[h]) == pi
    && (forall j :: h < j < pos ==> PassedOver(L[j], pi))
    && ExtractStep(L[pos], Inside(pi)) == Found(b)
  }

  /** Scanning from line `i` is one step on that line, then the scan of the rest. */
  lemma WalkFrom(L: seq<string>, i: nat, st: Scan)
    requires i < |L|
    ensures Walk(L[i..], st) == match ExtractStep(L[i], st)
      case Found(v) => Found(v)
      case Continue(next) => Walk(L[i + 1..], next)
  {
    assert L[i..][0] == L[i];
    assert L[i..][1..] == L[i + 1..];
  }

  /** A passed-over line of the block leaves the scan inside the block. */
  lemma PassedOverStep(line: string, pi: nat)
    requires PassedOver(line, pi)
    ensures ExtractStep(line, Inside(pi)) == Continue(Inside(pi))
  {
  }

  /** Inside the block, the scan passes over lines until it finds the value at `pos`. */
  lemma {:induction false} WalkInBlock(L: seq<string>, i: nat, pos: nat, pi: nat, b: string)
    requires i <= pos < |L|
    requires forall j :: i <= j < pos ==> PassedOver(L[j], pi)
    requires ExtractStep(L[pos], Inside(pi)) == Found(b)
    ensures Walk(L[i..], Inside(pi)) == Found(b)
    decreases pos - i
  {
    WalkFrom(L, i, Inside(pi));
    if i < pos {
      PassedOverStep(L[i], pi);
      WalkInBlock(L, i + 1, pos, pi, b);
    }
  }

  /** Outside the block, the scan passes over the lines before the header, enters the block and finds the value. */
  lemma {:induction false} WalkToHeader(L: seq<string>, h: nat, i: nat, pos: nat, pi: nat, b: string)
    requires FoundLayout(L, h, pos, pi, b) && i <= h
    ensures Walk(L[i..], Outside) == Found(b)
    decreases h - i
  {
    WalkFrom(L, i, Outside);
    if i < h {
      assert ExtractStep(L[i], Outside) == Continue(Outside);
      WalkToHeader(L, h, i + 1, pos, pi, b);
    } else {
      HeaderNotSkipped(L[h]);
      WalkInBlock(L, h + 1, pos, pi, b);
    }
  }

  /** More lines after the position of the value change nothing. */
  lemma LayoutExtend(L: seq<string>, extra: seq<string>, h: nat, pos: nat, pi: nat, b: string)
    requires FoundLayout(L, h, pos, pi, b)
    ensures FoundLayout(L + extra, h, pos, pi, b)
  {
    var M := L + extra;
    assert forall j :: 0 <= j < |L| ==> M[j] == L[j];
  }

  /** The backend line below an indent deeper than the header's is where the scan finds the value. */
  lemma BackendLineFound(ind: string, b: string, pi: nat)
    requires forall i :: 0 <= i < |ind| ==> IsJsSpace(ind[i])
    requires pi < |ind| && b != [] && NoJsSpace(b) && '#' !in b && !QuoteWrapped(b)
    ensures ExtractStep(BackendLine(ind, b), Inside(pi)) == Found(b)
  {
    BackendLineRead(ind, b);
  }

  /** Lines that agree with a layout's lines up to the value, and hold the value at its position, share the layout. */
  lemma LayoutTransfer(lines: seq<string>, W: seq<string>, h: nat, pos: nat, pi: nat, b: string)
    requires h < pos < |W| && pos <= |lines|
    requires forall j :: 0 <= j < pos ==> W[j] == lines[j]
    requires forall j :: 0 <= j < h ==> !IsPlannerHeader(lines[j])
    requires IsPlannerHeader(lines[h]) && Indent(lines[h]) == pi
    requires forall j :: h < j < pos ==> PassedOver(lines[j], pi)
    requires ExtractStep(W[pos], Inside(pi)) == Found(b)
    ensures FoundLayout(W, h, pos, pi, b)
  {
  }

  /** A backend line of the block is indented deeper than the header. */
  lemma BackendKeyIndent(line: string, pi: nat)
    requires KindOf(line, pi) == BackendKeyLine
    ensures pi < Indent(line) && |line[..Indent(line)]| == Indent(line)
    ensures forall i :: 0 <= i < Indent(line) ==> IsJsSpace(line[..Indent(line)][i])
  {
    SpanChars(line, JsSpace);
    assert forall i :: 0 <= i < Indent(line) ==> line[..Indent(line)][i] == line[i];
  }

  /** Replacing the backend line the section scan found puts the value where the scan finds it. */
  lemma ReplacedLayout(lines: seq<string>, h: nat, k: nat, pi: nat, b: string)
    requires h < k < |lines|
    requires forall j :: 0 <= j < h ==> !IsPlannerHeader(lines[j])
    requires IsPlannerHeader(lines[h]) && Indent(lines[h]) == pi
    requires forall j :: h < j < k ==> PassedOver(lines[j], pi)
    requires KindOf(lines[k], pi) == BackendKeyLine
    requires b != [] && NoJsSpace(b) && '#' !in b && !QuoteWrapped(b)
    ensures FoundLayout(WithBackendLine(lines, SectionScan(Some(k), k + 1), pi, b), h, k, pi, b)
  {
    var ind := lines[k][..Indent(lines[k])];
    BackendKeyIndent(lines[k], pi);
    BackendLineFound(ind, b, pi);
    var W := lines[k := BackendLine(ind, b)];
    LayoutTransfer(lines, W, h, k, pi, b);
  }

  /** Inserting a backend line where the section scan stopped puts the value where the scan finds it. */
  lemma InsertedLayout(lines: seq<string>, h: nat, pos: nat, pi: nat, b: string)
    requires h < pos <= |lines|
    requires forall j :: 0 <= j < h ==> !IsPlannerHeader(lines[j])
    requires IsPlannerHeader(lines[h]) && Indent(lines[h]) == pi
    requires forall j :: h < j < pos ==> PassedOver(lines[j], pi)
    requires b != [] && NoJsSpace(b) && '#' !in b && !QuoteWrapped(b)
    ensures FoundLayout(WithBackendLine(lines, SectionScan(None, pos), pi, b), h, pos, pi, b)
  {
    var W := lines[..pos] + [BackendLine(Spaces(pi + 2), b)] + lines[pos..];
    BackendLineFound(Spaces(pi + 2), b, pi);
    assert W[pos] == BackendLine(Spaces(pi + 2), b);
    assert forall j :: 0 <= j < pos ==> W[j] == lines[j];
    LayoutTransfer(lines, W, h, pos, pi, b);
  }

  /** The lines `updatePlannerBackend` produces for a file with a header put the value where the scan finds it. */
  lemma WithBackendLineLayout(lines: seq<string>, h: nat, b: string) returns (pos: nat)
    requires HeaderFrom(lines, 0) == Some(h)
    requires b != [] && NoJsSpace(b) && '#' !in b && !QuoteWrapped(b)
    ensures var pi := Indent(lines[h]);
      FoundLayout(WithBackendLine(lines, ScanSection(lines, h + 1, pi, h + 1), pi, b), h, pos, pi, b)
  {
    var pi := Indent(lines[h]);
    var scan := ScanSection(lines, h + 1, pi, h + 1);
    var facts := SectionFacts(lines, h);
    match scan.backendIndex
    case Some(k) =>
      pos := k;
      assert scan == SectionScan(Some(k), k + 1);
      ReplacedLayout(lines, h, k, pi, b);
    case None =>
      pos := scan.insertIndex;
      assert scan == SectionScan(None, pos);
      InsertedLayout(lines, h, pos, pi, b);
  }

  /**
   * What the two scans establish about the block of the first header:
   * no header before it, and every line the section scan passed over.
   */
  lemma SectionFacts(lines: seq<string>, h: nat) returns (stop: nat)
    requires HeaderFrom(lines, 0) == Some(h)
    ensures var scan := ScanSection(lines, h + 1, Indent(lines[h]), h + 1);
      && stop == (if scan.backendIndex.Some? then scan.backendIndex.value else scan.insertIndex)
      && (scan.backendIndex.Some? ==> KindOf(lines[stop], Indent(lines[h])) == BackendKeyLine)
    ensures h < stop <= |lines| && IsPlannerHeader(lines[h])
    ensures forall j :: 0 <= j < h ==> !IsPlannerHeader(lines[j])
    ensures forall j :: h < j < stop ==> PassedOver(lines[j], Indent(lines[h]))
  {
    var scan := ScanSection(lines, h + 1, Indent(lines[h]), h + 1);
    ScanSectionSpec(lines, h + 1, Indent(lines[h]), h + 1);
    stop := if scan.backendIndex.Some? then scan.backendIndex.value else scan.insertIndex;
  }

  /** An empty last line adds one separator. */
  lemma {:induction false} JoinSnoc(xs: seq<string>, sep: string)
    requires |xs| >= 1
    ensures Join(xs + [""], sep) == Join(xs, sep) + sep
    decreases |xs|
  {
    assert (xs + [""])[0] == xs[0];
    assert (xs + [""])[1..] == xs[1..] + [""];
    if |xs| > 1 {
      JoinSnoc(xs[1..], sep);
    }
  }

  /** A string without line terminators has neither '\n' nor '\r'. */
  lemma NoTerminatorNoBreak(s: string)
    requires NoLineTerminator(s)
    ensures '\n' !in s && '\r' !in s
  {
    forall i | 0 <= i < |s| ensures s[i] != '\n' && s[i] != '\r' {
      assert !IsJsLineTerminator(s[i]);
    }
  }

  /** The backend line has no line break when its indent has none. */
  lemma BackendLineNoBreak(ind: string, b: string)
    requires '\n' !in ind && '\r' !in ind && NoJsSpace(b)
    ensures '\n' !in BackendLine(ind, b) && '\r' !in BackendLine(ind, b)
  {
    var line := BackendLine(ind, b);
    forall i | 0 <= i < |line| ensures line[i] != '\n' && line[i] != '\r' {
      if i < |ind| {
        assert line[i] == ind[i];
      } else if i < |ind| + 9 {
        assert line[i] == "backend: "[i - |ind|];
      } else {
        assert line[i] == b[i - |ind| - 9];
        assert !IsJsSpace(b[i - |ind| - 9]);
      }
    }
  }

  /** Without line breaks in the lines, there are none in the lines `updatePlannerBackend` produces. */
  lemma WithBackendLineNoBreak(lines: seq<string>, scan: SectionScan, pi: nat, b: string)
    requires scan.insertIndex <= |lines| && (scan.backendIndex.Some? ==> scan.backendIndex.value < |lines|)
    requires NoJsSpace(b)
    requires forall j :: 0 <= j < |lines| ==> '\n' !in lines[j] && '\r' !in lines[j]
    ensures var W := WithBackendLine(lines, scan, pi, b);
      forall j :: 0 <= j < |W| ==> '\n' !in W[j] && '\r' !in W[j]
  {
    match scan.backendIndex
    case Some(k) =>
      var ind := lines[k][..Indent(lines[k])];
      assert forall i :: 0 <= i < |ind| ==> ind[i] == lines[k][i];
      BackendLineNoBreak(ind, b);
    case None =>
      var pos := scan.insertIndex;
      var W := lines[..pos] + [BackendLine(Spaces(pi + 2), b)] + lines[pos..];
      BackendLineNoBreak(Spaces(pi + 2), b);
      assert forall j :: 0 <= j < |W| ==> W[j] == BackendLine(Spaces(pi + 2), b) || W[j] in lines;
  }

  /** Joined lines that end with the terminator already are read as laid out. */
  lemma ReadBackJoined(W: seq<string>, nl: string, h: nat, pos: nat, pi: nat, b: string)
    requires FoundLayout(W, h, pos, pi, b) && (nl == "\n" || nl == "\r\n")
    requires forall j :: 0 <= j < |W| ==> '\n' !in W[j] && '\r' !in W[j]
    ensures Walk(SplitCrLf(Join(W, nl)), Outside) == Found(b)
  {
    SplitCrLfJoin(W, nl);
    LayoutWalk(W, h, pos, pi, b);
  }

  /** The scan of laid-out lines finds the value. */
  lemma LayoutWalk(L: seq<string>, h: nat, pos: nat, pi: nat, b: string)
    requires FoundLayout(L, h, pos, pi, b)
    ensures Walk(L, Outside) == Found(b)
  {
    assert L[0..] == L;
    WalkToHeader(L, h, 0, pos, pi, b);
  }

  /** Joined lines with a terminator appended are read as laid out. */
  lemma ReadBackTerminated(W: seq<string>, nl: string, h: nat, pos: nat, pi: nat, b: string)
    requires FoundLayout(W, h, pos, pi, b) && (nl == "\n" || nl == "\r\n")
    requires forall j :: 0 <= j < |W| ==> '\n' !in W[j] && '\r' !in W[j]
    ensures Walk(SplitCrLf(Join(W, nl) + nl), Outside) == Found(b)
  {
    TerminatedSplit(W, nl);
    LayoutExtend(W, [""], h, pos, pi, b);
    LayoutWalk(W + [""], h, pos, pi, b);
  }

  /** A final terminator reads back as one more, empty, line. */
  lemma TerminatedSplit(W: seq<string>, nl: string)
    requires |W| >= 1 && (nl == "\n" || nl == "\r\n")
    requires forall j :: 0 <= j < |W| ==> '\n' !in W[j] && '\r' !in W[j]
    ensures SplitCrLf(Join(W, nl) + nl) == W + [""]
  {
    var L := W + [""];
    JoinSnoc(W, nl);
    assert forall j :: 0 <= j < |L| ==> L[j] == "" || L[j] == W[j];
    SplitCrLfJoin(L, nl);
  }

  /** With a `planner:` header present, the backend `updatePlannerBackend` writes is the one read back. */
  lemma ReadBackWithHeader(content: string, b: string, h: nat)
    requires PlainLines(content) && HeaderFrom(SplitCrLf(content), 0) == Some(h)
    requires b != [] && NoJsSpace(b) && '#' !in b && !QuoteWrapped(b)
    ensures PlannerBackend(UpdatedPlannerConfig(content, b)) == Some(b)
  {
    var lines := SplitCrLf(content);
    var nl := NewlineOf(content);
    var pi := Indent(lines[h]);
    var scan := ScanSection(lines, h + 1, pi, h + 1);
    var W := WithBackendLine(lines, scan, pi, b);
    var pos := WithBackendLineLayout(lines, h, b);
    forall j | 0 <= j < |lines| ensures '\n' !in lines[j] && '\r' !in lines[j] {
      NoTerminatorNoBreak(lines[j]);
    }
    WithBackendLineNoBreak(lines, scan, pi, b);
    var joined := Join(W, nl);
    if IsSuffix(nl, joined) {
      ReadBackJoined(W, nl, h, pos, Indent(lines[h]), b);
    } else {
      ReadBackTerminated(W, nl, h, pos, Indent(lines[h]), b);
    }
  }

  /** A span that stops inside `a` stops at the same place in any extension of `a`. */
  lemma SpanStable(a: string, u: string, p: CharClass)
    requires Span(a, p) < |a|
    ensures Span(a + u, p) == Span(a, p)
  {
    var n := Span(a, p);
    SpanChars(a, p);
    assert forall i :: 0 <= i <= n ==> (a + u)[i] == a[i];
    SpanExact(a + u, p, n);
  }

  /** A run that stops inside `a` stops at the same place in any extension of `a`. */
  lemma RunFromStable(a: string, u: string, i: nat, p: CharClass)
    requires i <= |a| && i + RunFrom(a, i, p) < |a|
    ensures RunFrom(a + u, i, p) == RunFrom(a, i, p)
  {
    var n := RunFrom(a, i, p);
    assert forall k :: i <= k <= i + n ==> (a + u)[k] == a[k];
    RunFromExact(a + u, i, p, n);
  }

  /** A run that reaches the end of `a` goes on through an extension made of the same class. */
  lemma RunFromThrough(a: string, u: string, i: nat, p: CharClass)
    requires i <= |a| && i + RunFrom(a, i, p) == |a|
    requires forall k :: 0 <= k < |u| ==> InClass(u[k], p)
    ensures RunFrom(a + u, i, p) == |a + u| - i
  {
    forall k | i <= k < |a + u| ensures InClass((a + u)[k], p) {
      if k >= |a| { assert (a + u)[k] == u[k - |a|]; }
    }
    RunFromExact(a + u, i, p, |a + u| - i);
  }

  /** The header test once the colon position is known. */
  lemma HeaderAt(line: string, j: nat)
    requires KeyColonEnd(line, "planner") == Some(j) && CommentTailAt(line, j)
    ensures IsPlannerHeader(line)
  {
  }

  /** The comment tail still matches after trailing whitespace that `.` accepts. */
  lemma CommentTailExtend(a: string, u: string, j: nat)
    requires j <= |a| && CommentTailAt(a, j)
    requires forall k :: 0 <= k < |u| ==> IsJsSpace(u[k]) && !IsJsLineTerminator(u[k])
    ensures CommentTailAt(a + u, j)
  {
    var k := j + RunFrom(a, j, JsSpace);
    if k == |a| {
      RunFromThrough(a, u, j, JsSpace);
    } else {
      RunFromStable(a, u, j, JsSpace);
      assert (a + u)[k] == a[k];
      assert (a + u)[k + 1..] == a[k + 1..] + u;
      var c := (a + u)[k + 1..];
      forall i | 0 <= i < |c| ensures !IsJsLineTerminator(c[i]) {
        if i < |a[k + 1..]| { assert c[i] == a[k + 1..][i]; }
        else { assert c[i] == u[i - |a[k + 1..]|]; }
      }
    }
  }

  /** `^\s*key\s*:` matches the same way after anything is appended. */
  lemma KeyColonExtend(a: string, u: string, key: string)
    requires KeyColonEnd(a, key).Some?
    ensures KeyColonEnd(a + u, key) == KeyColonEnd(a, key)
  {
    var i0 := Indent(a);
    var r := RunFrom(a, i0 + |key|, JsSpace);
    KeyColonParts(a, key, i0, r);
    KeyColonAt(a, key, i0, r);
    KeyColonPrefix(a, u, key, i0, r);
    KeyColonAt(a + u, key, i0, r);
  }

  /** The parts of a `^\s*key\s*:` match that ends inside `a` are the same in `a + u`. */
  lemma KeyColonPrefix(a: string, u: string, key: string, i0: nat, r: nat)
    requires Indent(a) == i0 && OccursAt(a, key, i0)
    requires RunFrom(a, i0 + |key|, JsSpace) == r && i0 + |key| + r < |a| && a[i0 + |key| + r] == ':'
    ensures Indent(a + u) == i0 && OccursAt(a + u, key, i0) && i0 + |key| <= |a + u|
    ensures RunFrom(a + u, i0 + |key|, JsSpace) == r && i0 + |key| + r < |a + u| && (a + u)[i0 + |key| + r] == ':'
  {
    SpanStable(a, u, JsSpace);
    OccursStable(a, u, key, i0);
    RunFromStable(a, u, i0 + |key|, JsSpace);
  }

  /** Where a `^\s*key\s*:` match puts its colon. */
  lemma KeyColonParts(line: string, key: string, i0: nat, r: nat)
    requires KeyColonEnd(line, key).Some?
    requires i0 == Indent(line) && r == RunFrom(line, i0 + |key|, JsSpace)
    ensures i0 + |key| + r < |line| && line[i0 + |key| + r] == ':'
  {
  }

  /** An occurrence stays where it is when text is appended. */
  lemma OccursStable(a: string, u: string, pat: string, j: nat)
    requires OccursAt(a, pat, j)
    ensures OccursAt(a + u, pat, j)
  {
    assert (a + u)[j..j + |pat|] == a[j..j + |pat|];
  }

  /** A header line is still a header with trailing whitespace that `.` accepts. */
  lemma HeaderExtend(a: string, u: string)
    requires forall k :: 0 <= k < |u| ==> IsJsSpace(u[k]) && !IsJsLineTerminator(u[k])
    ensures IsPlannerHeader(a) ==> IsPlannerHeader(a + u)
  {
    if IsPlannerHeader(a) {
      var j := KeyColonEnd(a, "planner").value;
      KeyColonExtend(a, u, "planner");
      CommentTailExtend(a, u, j);
      HeaderAt(a + u, j);
    }
  }

  /** Dropping the carriage return of `x + v` takes it from `v` when `x` does not end with one. */
  lemma DropCrExtend(x: string, v: string) returns (m: nat)
    requires x == [] || x[|x| - 1] != '\r'
    ensures m <= |v| && DropCr(x + v) == x + v[..m]
  {
    if |v| > 0 && v[|v| - 1] == '\r' {
      m := |v| - 1;
      assert (x + v)[..|x + v| - 1] == x + v[..m];
    } else {
      m := |v|;
      assert v[..m] == v;
    }
  }

  /** The last piece of a string that does not end with a carriage return does not end with one either. */
  lemma LastPieceNoCr(t: string)
    requires t == [] || t[|t| - 1] != '\r'
    ensures var X := Split(t, '\n');
      X[|X| - 1] == [] || X[|X| - 1][|X[|X| - 1]| - 1] != '\r'
  {
    SplitLastSuffix(t, '\n');
  }

  /** Extending the last of the pieces extends the last line by what survives of the extension. */
  lemma DropCrsLastExtend(X: seq<string>, Y: seq<string>, v: string) returns (u: string)
    requires 1 <= |X| <= |Y| && X[..|X| - 1] == Y[..|X| - 1] && Y[|X| - 1] == X[|X| - 1] + v
    requires X[|X| - 1] == [] || X[|X| - 1][|X[|X| - 1]| - 1] != '\r'
    ensures |u| <= |v| && u == v[..|u|]
    ensures var T := DropCrs(X);
      var C := DropCrs(Y);
      T[..|X| - 1] == C[..|X| - 1] && C[|X| - 1] == T[|X| - 1] + u
  {
    var T := DropCrs(X);
    var C := DropCrs(Y);
    forall i | 0 <= i < |X| - 1 ensures T[i] == C[i] {
      assert X[i] == X[..|X| - 1][i] == Y[..|X| - 1][i] == Y[i];
    }
    if |X| < |Y| {
      var m := DropCrExtend(X[|X| - 1], v);
      u := v[..m];
    } else {
      u := v;
    }
  }

  /** Whitespace appended to `t` extends its last line, and leaves the lines before it alone. */
  lemma LinesExtend(t: string, w: string) returns (u: string)
    requires t == [] || t[|t| - 1] != '\r'
    requires forall k :: 0 <= k < |w| ==> IsJsSpace(w[k])
    ensures var T := SplitCrLf(t);
      var C := SplitCrLf(t + w);
      && |T| <= |C| && T[..|T| - 1] == C[..|T| - 1] && C[|T| - 1] == T[|T| - 1] + u
      && forall k :: 0 <= k < |u| ==> IsJsSpace(u[k])
  {
    var jj := SplitPrefix(t, w, '\n');
    LastPieceNoCr(t);
    u := DropCrsLastExtend(Split(t, '\n'), Split(t + w, '\n'), w[..jj]);
    forall k | 0 <= k < |u| ensures IsJsSpace(u[k]) {
      assert u[k] == w[..jj][k] == w[k];
    }
  }

  /** A file without a header has none once its trailing whitespace is trimmed. */
  lemma TrimEndNoHeader(content: string)
    requires PlainLines(content)
    requires forall j :: 0 <= j < |SplitCrLf(content)| ==> !IsPlannerHeader(SplitCrLf(content)[j])
    ensures var T := SplitCrLf(JsTrimEnd(content));
      forall j :: 0 <= j < |T| ==> !IsPlannerHeader(T[j])
  {
    var t := JsTrimEnd(content);
    var w := content[|t|..];
    JsTrimEndParts(content);
    forall k | 0 <= k < |w| ensures IsJsSpace(w[k]) {
      assert w[k] == content[|t| + k];
    }
    var u := LinesExtend(t, w);
    var T := SplitCrLf(t);
    NoHeaderBefore(T, SplitCrLf(content), u);
  }

  /** Lines that agree with header-free lines but for whitespace missing from the last one are header-free. */
  lemma NoHeaderBefore(T: seq<string>, C: seq<string>, u: string)
    requires 1 <= |T| <= |C| && T[..|T| - 1] == C[..|T| - 1] && C[|T| - 1] == T[|T| - 1] + u
    requires forall k :: 0 <= k < |u| ==> IsJsSpace(u[k])
    requires forall j :: 0 <= j < |C| ==> !IsPlannerHeader(C[j])
    requires NoLineTerminator(C[|T| - 1])
    ensures forall j :: 0 <= j < |T| ==> !IsPlannerHeader(T[j])
  {
    var last := T[|T| - 1];
    var piece := C[|T| - 1];
    forall k | 0 <= k < |u| ensures IsJsSpace(u[k]) && !IsJsLineTerminator(u[k]) {
      assert u[k] == piece[|last| + k];
    }
    HeaderExtend(last, u);
    forall j | 0 <= j < |T| - 1 ensures !IsPlannerHeader(T[j]) {
      assert T[j] == T[..|T| - 1][j] == C[..|T| - 1][j] == C[j];
    }
  }

  /** The header line `updatePlannerBackend` appends. */
  lemma AppendedHeader()
    ensures IsPlannerHeader("planner:") && Indent("planner:") == 0 && !IsPlannerHeader("")
  {
    var line := "planner:";
    SpanExact(line, JsSpace, 0);
    assert line[0..7] == "planner";
    RunFromExact(line, 7, JsSpace, 0);
    KeyColonAt(line, "planner", 0, 0);
    RunFromExact(line, 8, JsSpace, 0);
    HeaderAt(line, 8);
  }

  /** The lines `updatePlannerBackend` appends to a file without a header. */
  function AppendedLines(b: string): seq<string> {
    ["", "planner:", BackendLine(Spaces(2), b), ""]
  }

  /** After header-free lines, the appended block puts the value where the scan finds it. */
  lemma AppendedLayout(T: seq<string>, b: string)
    requires forall j :: 0 <= j < |T| ==> !IsPlannerHeader(T[j])
    requires b != [] && NoJsSpace(b) && '#' !in b && !QuoteWrapped(b)
    ensures FoundLayout(T + AppendedLines(b), |T| + 1, |T| + 2, 0, b)
    ensures FoundLayout(AppendedLines(b)[1..], 0, 1, 0, b)
  {
    AppendedAfter(T, b);
    AppendedBlockLayout(b);
  }

  /** The appended block below the other lines: blank line, header, then the value. */
  lemma AppendedAfter(T: seq<string>, b: string)
    requires forall j :: 0 <= j < |T| ==> !IsPlannerHeader(T[j])
    requires b != [] && NoJsSpace(b) && '#' !in b && !QuoteWrapped(b)
    ensures FoundLayout(T + AppendedLines(b), |T| + 1, |T| + 2, 0, b)
  {
    AppendedLinesLayout(b);
    LayoutShift(T, AppendedLines(b), 1, 2, 0, b);
  }

  /** The appended lines on their own: blank line, header, then the value. */
  lemma AppendedLinesLayout(b: string)
    requires b != [] && NoJsSpace(b) && '#' !in b && !QuoteWrapped(b)
    ensures FoundLayout(AppendedLines(b), 1, 2, 0, b)
  {
    var G := AppendedLines(b);
    AppendedBlockLayout(b);
    AppendedHeader();
    assert [""] + G[1..] == G;
    LayoutShift([""], G[1..], 0, 1, 0, b);
  }

  /** The appended header line at `h` and the appended value line right after it, with no header before. */
  lemma HeaderThenValue(L: seq<string>, h: nat, b: string)
    requires h + 1 < |L| && L[h] == "planner:" && L[h + 1] == BackendLine(Spaces(2), b)
    requires forall j :: 0 <= j < h ==> !IsPlannerHeader(L[j])
    requires b != [] && NoJsSpace(b) && '#' !in b && !QuoteWrapped(b)
    ensures FoundLayout(L, h, h + 1, 0, b)
  {
    BackendLineFound(Spaces(2), b, 0);
    HeaderThenLine(L, h, b);
  }

  /** The appended header line at `h` and a line right after it that the scan reads a value from. */
  lemma HeaderThenLine(L: seq<string>, h: nat, v: string)
    requires h + 1 < |L| && L[h] == "planner:" && ExtractStep(L[h + 1], Inside(0)) == Found(v)
    requires forall j :: 0 <= j < h ==> !IsPlannerHeader(L[j])
    ensures FoundLayout(L, h, h + 1, 0, v)
  {
    AppendedHeader();
  }

  /** Header-free lines put in front of a layout shift it down. */
  lemma LayoutShift(T: seq<string>, M: seq<string>, h: nat, pos: nat, pi: nat, b: string)
    requires forall j :: 0 <= j < |T| ==> !IsPlannerHeader(T[j])
    requires FoundLayout(M, h, pos, pi, b)
    ensures FoundLayout(T + M, |T| + h, |T| + pos, pi, b)
  {
    var L := T + M;
    forall j | 0 <= j < |T| + h
      ensures !IsPlannerHeader(L[j])
    {
      if j < |T| {
        assert L[j] == T[j];
      } else {
        assert L[j] == M[j - |T|];
      }
    }
    forall j | |T| + h < j < |T| + pos
      ensures PassedOver(L[j], pi)
    {
      assert L[j] == M[j - |T|];
    }
    assert L[|T| + h] == M[h] && L[|T| + pos] == M[pos];
  }

  /** The appended block on its own: header, then the value. */
  lemma AppendedBlockLayout(b: string)
    requires b != [] && NoJsSpace(b) && '#' !in b && !QuoteWrapped(b)
    ensures FoundLayout(AppendedLines(b)[1..], 0, 1, 0, b)
  {
    var G := AppendedLines(b);
    assert G[1..][0] == "planner:" && G[1..][1] == G[2];
    HeaderThenValue(G[1..], 0, b);
  }

  /** The appended block is the text `updatePlannerBackend` appends. */
  lemma AppendedJoin(b: string, nl: string)
    ensures Join(AppendedLines(b)[1..], nl) == "planner:" + nl + "  backend: " + b + nl
    ensures Join(AppendedLines(b), nl) == nl + ("planner:" + nl + "  backend: " + b + nl)
  {
    var G := AppendedLines(b);
    AppendedBlockJoin(b, nl);
    assert Join(G, nl) == "" + nl + Join(G[1..], nl);
  }

  /** The appended block without its leading blank line is the header line and the value line. */
  lemma AppendedBlockJoin(b: string, nl: string)
    ensures Join(AppendedLines(b)[1..], nl) == "planner:" + nl + "  backend: " + b + nl
  {
    var bl := BackendLine(Spaces(2), b);
    assert Spaces(2) == "  ";
    assert AppendedLines(b)[1..] == ["planner:", bl, ""];
    JoinTwoTerminated("planner:", bl, nl);
    assert bl == "  backend: " + b;
    ConcatAssoc("planner:" + nl, "  backend: ", b);
  }

  /** Two lines and an empty last piece join into both lines, each followed by the separator. */
  lemma JoinTwoTerminated(x: string, y: string, nl: string)
    ensures Join([x, y, ""], nl) == x + nl + y + nl
  {
    assert [x, y, ""][1..] == [y, ""];
    assert [y, ""][1..] == [""];
    assert Join([y, ""], nl) == y + nl + "";
    assert y + nl + "" == y + nl;
    ConcatAssoc(x + nl, y, nl);
  }

  /** The appended block splits back into its lines. */
  lemma AppendedSplit(b: string, nl: string)
    requires NoJsSpace(b) && (nl == "\n" || nl == "\r\n")
    ensures SplitCrLf(Join(AppendedLines(b), nl)) == AppendedLines(b)
    ensures SplitCrLf(Join(AppendedLines(b)[1..], nl)) == AppendedLines(b)[1..]
  {
    var G := AppendedLines(b);
    BackendLineNoBreak(Spaces(2), b);
    assert forall j :: 0 <= j < |G| ==> '\n' !in G[j] && '\r' !in G[j];
    SplitCrLfJoin(G, nl);
    SplitCrLfJoin(G[1..], nl);
  }

  /** The text `updatePlannerBackend` returns for a file without a header. */
  lemma UpdatedWithoutHeader(content: string, b: string)
    requires HeaderFrom(SplitCrLf(content), 0).None?
    ensures var nl := NewlineOf(content);
      var t := JsTrimEnd(content);
      var tail := Join(AppendedLines(b)[1..], nl);
      && (t != "" ==> UpdatedPlannerConfig(content, b) == t + nl + Join(AppendedLines(b), nl) && !IsJsSpace(t[|t| - 1]))
      && (t == "" ==> UpdatedPlannerConfig(content, b) == tail)
  {
    var nl := NewlineOf(content);
    var t := JsTrimEnd(content);
    var block := "planner:" + nl + "  backend: " + b + nl;
    UpdatedAppends(content, b);
    AppendedJoin(b, nl);
    JsTrimEndParts(content);
    ConcatAssoc(t + nl, nl, block);
  }

  /** With a header at `h`, `updatePlannerBackend` rewrites its block and ends the text with a newline. */
  lemma UpdatedRewrites(content: string, b: string, h: nat)
    requires HeaderFrom(SplitCrLf(content), 0) == Some(h)
    ensures h < |SplitCrLf(content)|
    ensures UpdatedPlannerConfig(content, b) == RewrittenBlock(SplitCrLf(content), h, b, NewlineOf(content))
  {
  }

  /** Without a header, `updatePlannerBackend` appends a new block after the trimmed text. */
  lemma UpdatedAppends(content: string, b: string)
    requires HeaderFrom(SplitCrLf(content), 0).None?
    ensures var nl := NewlineOf(content);
      var t := JsTrimEnd(content);
      UpdatedPlannerConfig(content, b) == (if t != "" then t + nl + nl else "") + ("planner:" + nl + "  backend: " + b + nl)
  {
  }

  /** After trimmed non-blank text, the appended block is read as laid out. */
  lemma ReadBackAppended(t: string, nl: string, b: string)
    requires t != [] && !IsJsSpace(t[|t| - 1]) && (nl == "\n" || nl == "\r\n")
    requires forall j :: 0 <= j < |SplitCrLf(t)| ==> !IsPlannerHeader(SplitCrLf(t)[j])
    requires b != [] && NoJsSpace(b) && '#' !in b && !QuoteWrapped(b)
    ensures Walk(SplitCrLf(t + nl + Join(AppendedLines(b), nl)), Outside) == Found(b)
  {
    var T := SplitCrLf(t);
    var G := AppendedLines(b);
    AppendedSplit(b, nl);
    AppendedLayout(T, b);
    SplitCrLfConcat(t, Join(G, nl), nl);
    var L := T + G;
    assert L[0..] == L;
    WalkToHeader(L, |T| + 1, 0, |T| + 2, 0, b);
  }

  /** The appended block alone is read as laid out. */
  lemma ReadBackAppendedAlone(nl: string, b: string)
    requires nl == "\n" || nl == "\r\n"
    requires b != [] && NoJsSpace(b) && '#' !in b && !QuoteWrapped(b)
    ensures Walk(SplitCrLf(Join(AppendedLines(b)[1..], nl)), Outside) == Found(b)
  {
    var G := AppendedLines(b)[1..];
    AppendedSplit(b, nl);
    AppendedLayout([], b);
    assert G[0..] == G;
    WalkToHeader(G, 0, 0, 1, 0, b);
  }

  /** Without a `planner:` header, the backend `updatePlannerBackend` writes is the one read back. */
  lemma ReadBackWithoutHeader(content: string, b: string)
    requires PlainLines(content) && HeaderFrom(SplitCrLf(content), 0).None?
    requires b != [] && NoJsSpace(b) && '#' !in b && !QuoteWrapped(b)
    ensures PlannerBackend(UpdatedPlannerConfig(content, b)) == Some(b)
  {
    var nl := NewlineOf(content);
    var t := JsTrimEnd(content);
    UpdatedWithoutHeader(content, b);
    if t != "" {
      TrimEndNoHeader(content);
      ReadBackAppended(t, nl, b);
    } else {
      ReadBackAppendedAlone(nl, b);
    }
  }

  /**
   * Saving a backend and reading the file back gives that backend: for a
   * trimmed valid spec without '#' or outer quotes, and a file whose line
   * breaks are "\n" or "\r\n" only.
   */
  lemma UpdateThenExtract(content: string, backend: string)
    requires PlainLines(content)
    requires IsValidBackendSpec(backend) && JsTrim(backend) == backend
    requires '#' !in backend && !QuoteWrapped(backend)
    ensures PlannerBackend(UpdatedPlannerConfig(content, backend)) == Some(backend)
  {
    ValidSpecNoSpace(backend);
    match HeaderFrom(SplitCrLf(content), 0)
    case Some(h) => ReadBackWithHeader(content, backend, h);
    case None => ReadBackWithoutHeader(content, backend);
  }

  /** The characters of the backend `a:#b`. */
  predicate HashSpec(b: string) {
    |b| == 4 && b[0] == 'a' && b[1] == ':' && b[2] == '#' && b[3] == 'b'
  }

  /** The capture of `a:#b` ends before the '#', which the regex takes for a comment. */
  lemma HashCapture(line: string, b: string)
    requires HashSpec(b) && line == BackendLine(Spaces(2), b)
    ensures CapturedAfter(line, 10) == Some("a:")
  {
    HashLineChars(line, b);
    RunFromExact(line, 10, JsSpace, 1);
    HashCaptureEnd(line);
    BackendValueAt(line, 10, 11, 13);
    assert line[11..13] == "a:";
    StripByNoEdges("a:", JsSpace);
  }

  /** The characters of the line written for `a:#b` from the space after the key on. */
  lemma HashLineChars(line: string, b: string)
    requires HashSpec(b) && line == BackendLine(Spaces(2), b)
    ensures |line| == 15 && line[10] == ' ' && line[11] == 'a' && line[12] == ':' && line[13] == '#' && line[14] == 'b'
  {
    assert Spaces(2) == "  ";
    assert line == "  backend: " + b;
  }

  /** The lazy capture that starts at 'a' ends before the '#'. */
  lemma HashCaptureEnd(line: string)
    requires |line| == 15 && line[11] == 'a' && line[12] == ':' && line[13] == '#' && line[14] == 'b'
    ensures CaptureEnd(line, 12) == Some(13)
  {
    RunFromExact(line, 12, JsSpace, 0);
    RunFromExact(line, 13, JsSpace, 0);
    assert !CommentTailAt(line, 12);
    assert line[14..] == "b";
    assert CommentTailAt(line, 13);
  }

  /**
   * A valid spec holding '#' does not survive the round trip: saving
   * `a:#b` into an empty file reads back as `a:`.
   */
  lemma HashBackendReadsBack()
    ensures PlannerBackend(UpdatedPlannerConfig("", "a:#b")) == Some("a:")
  {
    HashSaveReadsBack("a:#b");
  }

  /** Saving a backend spelled `a:#b` into an empty file and reading it back gives `a:`. */
  lemma HashSaveReadsBack(b: string)
    requires HashSpec(b)
    ensures PlannerBackend(UpdatedPlannerConfig("", b)) == Some("a:")
  {
    EmptySaveText(b);
    HashLines(b);
    HashReadsBack(b);
  }

  /** The scan of the block written for `a:#b` stops at the '#'. */
  lemma HashReadsBack(b: string)
    requires HashSpec(b)
    ensures Walk(AppendedLines(b)[1..], Outside) == Found("a:")
  {
    HashBlock(b);
    HeaderBlockWalk(AppendedLines(b)[1..], "a:");
  }

  /** The scan of lines that open with the header finds whatever the next line yields. */
  lemma HeaderBlockWalk(G: seq<string>, v: string)
    requires |G| >= 2 && IsPlannerHeader(G[0]) && Indent(G[0]) == 0 && ExtractStep(G[1], Inside(0)) == Found(v)
    ensures Walk(G, Outside) == Found(v)
  {
    assert FoundLayout(G, 0, 1, 0, v);
    LayoutWalk(G, 0, 1, 0, v);
  }

  /** In the block written for `a:#b`, the line after the header yields `a:`. */
  lemma HashBlock(b: string)
    requires HashSpec(b)
    ensures var G := AppendedLines(b)[1..];
      |G| >= 2 && IsPlannerHeader(G[0]) && Indent(G[0]) == 0 && ExtractStep(G[1], Inside(0)) == Found("a:")
  {
    AppendedBlockLines(b);
    AppendedHeader();
    HashLineFound(BackendLine(Spaces(2), b), b);
  }

  /** Saving into an empty file writes the appended block alone, which is not empty. */
  lemma EmptySaveText(b: string)
    ensures UpdatedPlannerConfig("", b) == Join(AppendedLines(b)[1..], "\n")
    ensures Join(AppendedLines(b)[1..], "\n") != ""
  {
    assert NewlineOf("") == "\n";
    assert SplitCrLf("") == [""];
    AppendedHeader();
    assert HeaderFrom(SplitCrLf(""), 0).None?;
    UpdatedWithoutHeader("", b);
    AppendedJoin(b, "\n");
  }

  /** The block written for `a:#b` splits back into its lines. */
  lemma HashLines(b: string)
    requires HashSpec(b)
    ensures SplitCrLf(Join(AppendedLines(b)[1..], "\n")) == AppendedLines(b)[1..]
  {
    assert NoJsSpace(b);
    AppendedSplit(b, "\n");
  }

  /** The appended block: the header, then the backend line. */
  lemma AppendedBlockLines(b: string)
    ensures var G := AppendedLines(b)[1..];
      |G| == 3 && G[0] == "planner:" && G[1] == BackendLine(Spaces(2), b)
  {
  }

  /** The line written for `a:#b` yields `a:` to the scan inside the block. */
  lemma HashLineFound(line: string, b: string)
    requires HashSpec(b) && line == BackendLine(Spaces(2), b)
    ensures ExtractStep(line, Inside(0)) == Found("a:")
  {
    HashKey(line, b);
    HashCapture(line, b);
    BackendValueKey(line, 10);
    ExtractFound(line, 0, "a:");
  }

  /** The key of the line written for `a:#b` ends after its colon at 10. */
  lemma HashKey(line: string, b: string)
    requires HashSpec(b) && line == BackendLine(Spaces(2), b)
    ensures Indent(line) == 2 && !Skipped(line) && KeyColonEnd(line, "backend") == Some(10)
  {
    assert b[0] == 'a';
    BackendLineKey(Spaces(2), b);
  }

  /** A line of the block indented under the header that yields a value ends the scan with it. */
  lemma ExtractFound(line: string, pi: nat, v: string)
    requires !Skipped(line) && pi < Indent(line) && BackendValue(line) == Some(v)
    ensures ExtractStep(line, Inside(pi)) == Found(v)
  {
  }

  // ---------------------------------------------------------------------
  // saveBackendSetting
  // ---------------------------------------------------------------------

  /** The settings file a save goes to: the repo's `.agentize.local.yaml`, or the one in the home directory. */
  datatype Scope = Repo | Global

  /**
   * `saveBackendSetting`: the file text written for a backend, or the error
   * thrown.  `content` is the text of the chosen scope's file, and
   * `hasWorkspace` says whether there is a repo root to find the repo file in.
   */
  function SaveBackendSetting(content: string, backend: string, scope: Scope, hasWorkspace: bool): Result<string> {
    var b := JsTrim(backend);
    if !IsValidBackendSpec(b) then Err("Backend must be in provider:model format.")
    else if scope == Repo && !hasWorkspace then Err("Open a workspace to edit repo settings.")
    else Ok(UpdatedPlannerConfig(content, b))
  }

  /**
   * Saving is refused for an invalid spec, and then for the repo scope
   * without a workspace; otherwise it succeeds, and a saved spec without '#'
   * or outer quotes is what the settings view reads back from the file.
   */
  lemma SaveThenLoad(content: string, backend: string, scope: Scope, hasWorkspace: bool)
    ensures var r := SaveBackendSetting(content, backend, scope, hasWorkspace);
      && (r.Ok? <==> IsValidBackendSpec(backend) && (scope == Global || hasWorkspace))
      && (!IsValidBackendSpec(backend) ==> r == Err("Backend must be in provider:model format."))
      && (IsValidBackendSpec(backend) && scope == Repo && !hasWorkspace ==> r == Err("Open a workspace to edit repo settings."))
    ensures var r := SaveBackendSetting(content, backend, scope, hasWorkspace);
      r.Ok? && PlainLines(content) && '#' !in backend && !QuoteWrapped(JsTrim(backend))
      ==> PlannerBackend(r.value) == Some(JsTrim(backend))
  {
    var b := JsTrim(backend);
    TrimIdempotent(backend);
    assert IsValidBackendSpec(b) == IsValidBackendSpec(backend);
    if IsValidBackendSpec(b) && PlainLines(content) && '#' !in backend && !QuoteWrapped(b) {
      TrimKeepsOut(backend, '#');
      UpdateThenExtract(content, b);
    }
  }

  /** Trimming adds no character. */
  lemma TrimKeepsOut(s: string, c: char)
    requires c !in s
    ensures c !in JsTrim(s)
  {
    var n := Span(s, JsSpace);
    var t := s[n..];
    var r := t[..|t| - SpanEnd(t, JsSpace)];
    assert forall i :: 0 <= i < |r| ==> r[i] == s[n + i];
  }
}
