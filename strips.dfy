/**
 * Normalisation of shell command text before rule matching
 * (`python/agentize/permission/strips.py`).
 *
 * Both strippers remove a leading run of one regular-expression group.  Each
 * group is matched deterministically once its start is fixed (every `+` and
 * `*` meets a character it cannot consume), so the regex's match is the
 * longest run of back-to-back groups; the functions below compute that run
 * one group at a time.
 */
module Strips {
  import opened Text

  // ---------------------------------------------------------------------
  // strip_env_vars: ^(\w+=\S+\s+)+
  // ---------------------------------------------------------------------

  /** `g` splits as NAME `=` VALUE WS at `a` (the `=`) and `b` (first blank). */
  predicate EnvGroupSplit(g: string, a: int, b: int)
  {
    0 < a && a + 1 < b < |g|
    && (forall i :: 0 <= i < a ==> IsWordChar(g[i]))
    && g[a] == '='
    && (forall i :: a < i < b ==> !IsPySpace(g[i]))
    && (forall i :: b <= i < |g| ==> IsPySpace(g[i]))
  }

  /** `g` is one `NAME=value ` assignment followed by its blanks. */
  ghost predicate IsEnvGroup(g: string)
  {
    exists a, b :: EnvGroupSplit(g, a, b)
  }

  /** `p` is a concatenation of zero or more assignment groups. */
  ghost predicate IsEnvRun(p: string)
    decreases |p|
  {
    p == [] || exists k :: 0 < k <= |p| && IsEnvGroup(p[..k]) && IsEnvRun(p[k..])
  }

  /** Length of the assignment group at the start of `s`, or 0 when there is none. */
  function EnvGroupLen(s: string): (n: nat)
    ensures n <= |s|
    ensures n > 0 ==> IsEnvGroup(s[..n])
    ensures 0 < n < |s| ==> !IsPySpace(s[n])
  {
    var w := RunFrom(s, 0, Word);
    if w == 0 || w == |s| || s[w] != '=' then 0
    else
      var v := RunFrom(s, w + 1, NonPySpace);
      if v == 0 || w + 1 + v == |s| then 0
      else
        var n := w + 1 + v + RunFrom(s, w + 1 + v, PySpace);
        assert EnvGroupSplit(s[..n], w, w + 1 + v);
        n
  }

  /** No prefix of `s` is an assignment group when `EnvGroupLen` finds none. */
  lemma NoEnvGroupPrefix(s: string, j: nat)
    requires EnvGroupLen(s) == 0
    requires 0 < j <= |s|
    ensures !IsEnvGroup(s[..j])
  {
    if IsEnvGroup(s[..j]) {
      var a, b :| EnvGroupSplit(s[..j], a, b);
      RunFromExact(s, 0, Word, a);
      RunFromExact(s, a + 1, NonPySpace, b - a - 1);
      assert false;
    }
  }

  /** Length of the longest leading run of groups, `grp` giving each group's length. */
  function RunLen(s: string, grp: string -> nat): (n: nat)
    requires forall t :: grp(t) <= |t|
    ensures n <= |s|
    ensures grp(s[n..]) == 0
    decreases |s|
  {
    var g := grp(s);
    if g == 0 then 0
    else
      var n := g + RunLen(s[g..], grp);
      assert s[n..] == s[g..][n - g..];
      n
  }

  /** Length of the longest leading run of assignment groups. */
  function EnvRunLen(s: string): (n: nat)
    ensures n <= |s|
    ensures EnvGroupLen(s[n..]) == 0
  {
    RunLen(s, EnvGroupLen)
  }

  /** What `EnvRunLen` skips is a run of assignment groups. */
  lemma {:induction false} EnvRunIsRun(s: string)
    ensures IsEnvRun(s[..EnvRunLen(s)])
    decreases |s|
  {
    if EnvGroupLen(s) > 0 {
      EnvRunIsRun(s[EnvGroupLen(s)..]);
      EnvRunExtend(s);
    }
  }

  /** The run after the first group, with that group in front, is the run of the whole. */
  lemma EnvRunExtend(s: string)
    requires EnvGroupLen(s) > 0
    requires var rest := s[EnvGroupLen(s)..]; IsEnvRun(rest[..EnvRunLen(rest)])
    ensures IsEnvRun(s[..EnvRunLen(s)])
  {
    EnvRunLenStep(s);
    EnvRunCons(s, EnvGroupLen(s), EnvRunLen(s));
  }

  /** After a group, the run goes on from the end of that group. */
  lemma EnvRunLenStep(s: string)
    requires EnvGroupLen(s) > 0
    ensures EnvRunLen(s) == EnvGroupLen(s) + EnvRunLen(s[EnvGroupLen(s)..])
  {
  }

  /** A group followed by a run is a run. */
  lemma EnvRunCons(s: string, g: nat, n: nat)
    requires 0 < g <= n <= |s| && IsEnvGroup(s[..g]) && IsEnvRun(s[g..][..n - g])
    ensures IsEnvRun(s[..n])
  {
    assert s[..n][..g] == s[..g];
    assert s[..n][g..] == s[g..][..n - g];
  }

  /** A run of groups stops at the end of the text or before a non-blank: its last group's blanks are all consumed. */
  lemma {:induction false} EnvRunEndsOffBlank(s: string)
    ensures var n := EnvRunLen(s); 0 < n < |s| ==> !IsPySpace(s[n])
    decreases |s|
  {
    var g := EnvGroupLen(s);
    if g > 0 {
      EnvRunLenStep(s);
      var t := s[g..];
      EnvRunEndsOffBlank(t);
      var m := EnvRunLen(t);
      if 0 < m < |t| {
        assert s[g + m] == t[m];
      }
    }
  }

  /** `strip_env_vars`: drop the leading `NAME=value ` assignments. */
  function StripEnvVars(command: string): (r: string)
    ensures IsSuffix(r, command)
  {
    command[EnvRunLen(command)..]
  }

  /**
   * The stripped text is a suffix of the command, what was removed is a run of
   * assignment groups, and no prefix of what is left is another one: the match
   * of the regex is exactly the longest leading run.  When something was
   * removed, what is left does not start with a blank: the last group's `\s+`
   * took all of them.
   */
  lemma StripEnvVarsRemovesLongestRun(command: string)
    ensures var r := StripEnvVars(command);
      && |r| <= |command| && r == command[|command| - |r|..]
      && IsEnvRun(command[..|command| - |r|])
      && (forall j :: 0 < j <= |r| ==> !IsEnvGroup(r[..j]))
      && (|r| < |command| ==> r == [] || !IsPySpace(r[0]))
  {
    EnvStripRemovesRun(command);
    EnvStripOpensNoGroup(command);
    EnvStripStopsOffBlank(command);
  }

  /** The removed prefix is a run of assignment groups. */
  lemma EnvStripRemovesRun(command: string)
    ensures var r := StripEnvVars(command);
      |r| <= |command| && r == command[|command| - |r|..] && IsEnvRun(command[..|command| - |r|])
  {
    var r := StripEnvVars(command);
    assert |command| - |r| == EnvRunLen(command);
    EnvRunIsRun(command);
  }

  /** No prefix of what is left is another assignment group. */
  lemma EnvStripOpensNoGroup(command: string)
    ensures var r := StripEnvVars(command); forall j :: 0 < j <= |r| ==> !IsEnvGroup(r[..j])
  {
    var r := StripEnvVars(command);
    forall j | 0 < j <= |r| ensures !IsEnvGroup(r[..j]) {
      NoEnvGroupPrefix(r, j);
    }
  }

  /** What is left after removing a non-empty run does not start with a blank. */
  lemma EnvStripStopsOffBlank(command: string)
    ensures var r := StripEnvVars(command); |r| < |command| ==> r == [] || !IsPySpace(r[0])
  {
    var n := EnvRunLen(command);
    EnvRunEndsOffBlank(command);
    if 0 < n < |command| {
      assert command[n..][0] == command[n];
    }
  }

  lemma StripEnvVarsIdempotent(command: string)
    ensures StripEnvVars(StripEnvVars(command)) == StripEnvVars(command)
  {
  }

  // ---------------------------------------------------------------------
  // strip_shell_prefixes: ^(set\s+-[exo]\s+[a-z]*\s*&&\s*)+  (IGNORECASE)
  // ---------------------------------------------------------------------

  /** Characters matching `s` case-insensitively under Python's Unicode rules. */
  predicate MatchesS(c: char) { c == 's' || c == 'S' || c == '\U{17f}' }

  /** `[exo]` under IGNORECASE. */
  predicate MatchesFlag(c: char) {
    c == 'e' || c == 'E' || c == 'x' || c == 'X' || c == 'o' || c == 'O'
  }

  /**
   * `s[..n]` splits as `set`, blanks up to `a` (the `-`), the flag letter,
   * blanks up to `b`, letters up to `c`, blanks up to `d` (the first `&`),
   * `&&` and blanks up to `n`.
   */
  predicate ShellClauseAt(s: string, a: int, b: int, c: int, d: int, n: int)
  {
    3 < a && a + 2 < b <= c <= d && d + 2 <= n <= |s|
    && MatchesS(s[0]) && (s[1] == 'e' || s[1] == 'E') && (s[2] == 't' || s[2] == 'T')
    && (forall i :: 3 <= i < a ==> IsPySpace(s[i]))
    && s[a] == '-' && MatchesFlag(s[a + 1])
    && (forall i :: a + 2 <= i < b ==> IsPySpace(s[i]))
    && (forall i :: b <= i < c ==> IsAzIgnoreCase(s[i]))
    && (forall i :: c <= i < d ==> IsPySpace(s[i]))
    && s[d] == '&' && s[d + 1] == '&'
    && (forall i :: d + 2 <= i < n ==> IsPySpace(s[i]))
  }

  /** `g` is one `set -X word && ` clause followed by its blanks. */
  ghost predicate IsShellGroup(g: string)
  {
    exists a, b, c, d :: ShellClauseAt(g, a, b, c, d, |g|)
  }

  /** `p` is a concatenation of zero or more `set` clauses. */
  ghost predicate IsShellRun(p: string)
    decreases |p|
  {
    p == [] || exists k :: 0 < k <= |p| && IsShellGroup(p[..k]) && IsShellRun(p[k..])
  }

  /** A clause ending at `n` is a clause of the prefix `s[..n]`, and back. */
  lemma ClausePrefix(s: string, a: int, b: int, c: int, d: int, n: nat)
    requires n <= |s|
    ensures ShellClauseAt(s, a, b, c, d, n) <==> ShellClauseAt(s[..n], a, b, c, d, n)
  {
    if ShellClauseAt(s[..n], a, b, c, d, n) {
      assert forall i :: 0 <= i < n ==> s[..n][i] == s[i];
    }
  }

  /** Length of one `set -X word && ` group at the start of `s`, or 0. */
  function ShellGroupLen(s: string): (n: nat)
    ensures n <= |s|
    ensures 0 < n < |s| ==> !IsPySpace(s[n])
  {
    if |s| < 3 || !MatchesS(s[0]) || (s[1] != 'e' && s[1] != 'E') || (s[2] != 't' && s[2] != 'T') then 0
    else AfterSet(s, 3 + RunFrom(s, 3, PySpace))
  }

  /** The group's length once `set` and its blanks end at `a`: `-`, the flag, then blanks. */
  function AfterSet(s: string, a: nat): (n: nat)
    requires 3 <= a <= |s|
    ensures n <= |s|
    ensures 0 < n < |s| ==> !IsPySpace(s[n])
  {
    if a == 3 || a + 1 >= |s| || s[a] != '-' || !MatchesFlag(s[a + 1]) then 0
    else AfterFlag(s, a, a + 2 + RunFrom(s, a + 2, PySpace))
  }

  /** The group's length once the blanks after the flag end at `b`: letters, blanks, then `&&`. */
  function AfterFlag(s: string, a: nat, b: nat): (n: nat)
    requires a + 2 <= b <= |s|
    ensures n <= |s|
    ensures 0 < n < |s| ==> !IsPySpace(s[n])
  {
    if b == a + 2 then 0
    else
      var c := b + RunFrom(s, b, AzIgnoreCase);
      AtAmpersands(s, c + RunFrom(s, c, PySpace))
  }

  /** The group's length when `&&` is due at `d`: the `&&` and the blanks after it. */
  function AtAmpersands(s: string, d: nat): (n: nat)
    requires d <= |s|
    ensures n <= |s|
    ensures 0 < n < |s| ==> !IsPySpace(s[n])
  {
    if d + 2 > |s| || s[d] != '&' || s[d + 1] != '&' then 0
    else d + 2 + RunFrom(s, d + 2, PySpace)
  }

  /** A positive `ShellGroupLen` covers exactly one `set` clause. */
  lemma ShellGroupLenIsGroup(s: string)
    ensures ShellGroupLen(s) > 0 ==> IsShellGroup(s[..ShellGroupLen(s)])
  {
    if ShellGroupLen(s) > 0 {
      var a, b, c, d := GroupLayout(s);
      ClauseOfRuns(s, a, b, c, d, ShellGroupLen(s));
      ClauseIsGroup(s, a, b, c, d, ShellGroupLen(s));
    }
  }

  /** The positions the greedy runs of a positive `ShellGroupLen` stop at. */
  lemma GroupLayout(s: string) returns (a: nat, b: nat, c: nat, d: nat)
    requires ShellGroupLen(s) > 0
    ensures |s| >= 3 && MatchesS(s[0]) && (s[1] == 'e' || s[1] == 'E') && (s[2] == 't' || s[2] == 'T')
    ensures a == 3 + RunFrom(s, 3, PySpace) && 3 < a && a + 1 < |s| && s[a] == '-' && MatchesFlag(s[a + 1])
    ensures b == a + 2 + RunFrom(s, a + 2, PySpace) && a + 2 < b
    ensures c == b + RunFrom(s, b, AzIgnoreCase) && d == c + RunFrom(s, c, PySpace)
    ensures d + 2 <= |s| && s[d] == '&' && s[d + 1] == '&' && ShellGroupLen(s) == d + 2 + RunFrom(s, d + 2, PySpace)
  {
    a := SetStepBack(s);
    b := FlagStepBack(s, a);
    c, d := AmpersandStepBack(s, a, b);
  }

  /** A clause ending at `n` makes `s[..n]` one `set` clause. */
  lemma ClauseIsGroup(s: string, a: int, b: int, c: int, d: int, n: nat)
    requires n <= |s| && ShellClauseAt(s, a, b, c, d, n)
    ensures IsShellGroup(s[..n])
  {
    var g := s[..n];
    assert forall i :: 0 <= i < n ==> g[i] == s[i];
    assert ShellClauseAt(g, a, b, c, d, |g|);
  }

  /** The greedy runs that reach a `&&` lay out a clause. */
  lemma ClauseOfRuns(s: string, a: nat, b: nat, c: nat, d: nat, n: nat)
    requires |s| >= 3 && MatchesS(s[0]) && (s[1] == 'e' || s[1] == 'E') && (s[2] == 't' || s[2] == 'T')
    requires a == 3 + RunFrom(s, 3, PySpace) && 3 < a && a + 1 < |s| && s[a] == '-' && MatchesFlag(s[a + 1])
    requires b == a + 2 + RunFrom(s, a + 2, PySpace) && a + 2 < b
    requires c == b + RunFrom(s, b, AzIgnoreCase) && d == c + RunFrom(s, c, PySpace)
    requires d + 2 <= |s| && s[d] == '&' && s[d + 1] == '&' && n == d + 2 + RunFrom(s, d + 2, PySpace)
    ensures ShellClauseAt(s, a, b, c, d, n)
  {
  }

  /** A clause at the start of `s` is found by `ShellGroupLen`. */
  lemma ClauseFound(s: string, a: int, b: int, c: int, d: int, n: int)
    requires ShellClauseAt(s, a, b, c, d, n)
    ensures ShellGroupLen(s) > 0
  {
    var b', c', d' := ClauseRest(s, a, b, c, d, n);
    SetBlanks(s, a, b, c, d, n);
    ClauseMarks(s, a, b, c, d, n);
    GreedyClause(s, a, b', c', d');
  }

  /** The fixed characters of a clause: `set`, the `-` of the flag and the `&&`. */
  lemma ClauseMarks(s: string, a: int, b: int, c: int, d: int, n: int)
    requires ShellClauseAt(s, a, b, c, d, n)
    ensures 3 < a && a + 1 < |s| && d + 2 <= |s|
    ensures MatchesS(s[0]) && (s[1] == 'e' || s[1] == 'E') && (s[2] == 't' || s[2] == 'T')
    ensures s[a] == '-' && MatchesFlag(s[a + 1]) && s[d] == '&' && s[d + 1] == '&'
  {
  }

  /** `ShellGroupLen` is positive once its greedy runs reach a `&&`. */
  lemma GreedyClause(s: string, a: nat, b: nat, c: nat, d: nat)
    requires |s| >= 3 && MatchesS(s[0]) && (s[1] == 'e' || s[1] == 'E') && (s[2] == 't' || s[2] == 'T')
    requires a == 3 + RunFrom(s, 3, PySpace) && 3 < a && a + 1 < |s| && s[a] == '-' && MatchesFlag(s[a + 1])
    requires b == a + 2 + RunFrom(s, a + 2, PySpace) && a + 2 < b
    requires c == b + RunFrom(s, b, AzIgnoreCase) && d == c + RunFrom(s, c, PySpace)
    requires d + 2 <= |s| && s[d] == '&' && s[d + 1] == '&'
    ensures ShellGroupLen(s) > 0
  {
    SetStep(s);
    FlagFwd(s, a, b);
    AmpersandStep(s, a, b, c, d);
  }

  lemma FlagFwd(s: string, a: nat, b: nat)
    requires 3 < a && a + 1 < |s| && s[a] == '-' && MatchesFlag(s[a + 1])
    requires b == a + 2 + RunFrom(s, a + 2, PySpace)
    ensures a + 2 <= b <= |s| && AfterSet(s, a) == AfterFlag(s, a, b)
  {
    FlagStep(s, a);
  }

  lemma SetStep(s: string)
    requires |s| >= 3 && MatchesS(s[0]) && (s[1] == 'e' || s[1] == 'E') && (s[2] == 't' || s[2] == 'T')
    ensures ShellGroupLen(s) == AfterSet(s, 3 + RunFrom(s, 3, PySpace))
  {
  }

  lemma FlagStep(s: string, a: nat)
    requires 3 < a && a + 1 < |s| && s[a] == '-' && MatchesFlag(s[a + 1])
    ensures AfterSet(s, a) == AfterFlag(s, a, a + 2 + RunFrom(s, a + 2, PySpace))
  {
  }

  lemma AmpersandStep(s: string, a: nat, b: nat, c: nat, d: nat)
    requires a + 2 < b <= |s|
    requires c == b + RunFrom(s, b, AzIgnoreCase) && d == c + RunFrom(s, c, PySpace)
    requires d + 2 <= |s| && s[d] == '&' && s[d + 1] == '&'
    ensures AfterFlag(s, a, b) > 0
  {
  }

  /** A positive `ShellGroupLen` has seen `set` and blanks up to `a`. */
  lemma SetStepBack(s: string) returns (a: nat)
    requires ShellGroupLen(s) > 0
    ensures |s| >= 3 && MatchesS(s[0]) && (s[1] == 'e' || s[1] == 'E') && (s[2] == 't' || s[2] == 'T')
    ensures a == 3 + RunFrom(s, 3, PySpace) && 3 <= a <= |s| && ShellGroupLen(s) == AfterSet(s, a)
  {
    SetStep(s);
    a := 3 + RunFrom(s, 3, PySpace);
  }

  /** A positive `AfterSet` has seen the `-` and the flag, then blanks up to `b`. */
  lemma FlagStepBack(s: string, a: nat) returns (b: nat)
    requires 3 <= a <= |s| && AfterSet(s, a) > 0
    ensures 3 < a && a + 1 < |s| && s[a] == '-' && MatchesFlag(s[a + 1])
    ensures b == a + 2 + RunFrom(s, a + 2, PySpace) && b <= |s| && AfterSet(s, a) == AfterFlag(s, a, b)
  {
    assert 3 < a && a + 1 < |s| && s[a] == '-' && MatchesFlag(s[a + 1]);
    FlagStep(s, a);
    b := a + 2 + RunFrom(s, a + 2, PySpace);
  }

  /** A positive `AfterFlag` has seen blanks after the flag, then letters to `c`, blanks to `d` and `&&`. */
  lemma AmpersandStepBack(s: string, a: nat, b: nat) returns (c: nat, d: nat)
    requires a + 2 <= b <= |s| && AfterFlag(s, a, b) > 0
    ensures a + 2 < b
    ensures c == b + RunFrom(s, b, AzIgnoreCase) && d == c + RunFrom(s, c, PySpace)
    ensures d + 2 <= |s| && s[d] == '&' && s[d + 1] == '&' && AfterFlag(s, a, b) == d + 2 + RunFrom(s, d + 2, PySpace)
  {
    c := b + RunFrom(s, b, AzIgnoreCase);
    d := c + RunFrom(s, c, PySpace);
  }

  /** After the flag, the greedy blank, letter and blank runs end at the first `&`. */
  lemma ClauseRest(s: string, a: int, b: int, c: int, d: int, n: int) returns (b': nat, c': nat, d': nat)
    requires ShellClauseAt(s, a, b, c, d, n)
    ensures b' == a + 2 + RunFrom(s, a + 2, PySpace) && b' > a + 2
    ensures c' == b' + RunFrom(s, b', AzIgnoreCase)
    ensures d' == c' + RunFrom(s, c', PySpace) && d' == d
  {
    if b < c {
      LettersAfterFlag(s, a, b, c, d, n);
      b', c', d' := b, c, d;
    } else {
      NoLettersAfterFlag(s, a, b, c, d, n);
      b', c', d' := d, d, d;
    }
  }

  lemma SetBlanks(s: string, a: int, b: int, c: int, d: int, n: int)
    requires ShellClauseAt(s, a, b, c, d, n)
    ensures a == 3 + RunFrom(s, 3, PySpace)
  {
    RunFromExact(s, 3, PySpace, a - 3);
  }

  lemma LettersAfterFlag(s: string, a: int, b: int, c: int, d: int, n: int)
    requires ShellClauseAt(s, a, b, c, d, n) && b < c
    ensures b == a + 2 + RunFrom(s, a + 2, PySpace)
    ensures c == b + RunFrom(s, b, AzIgnoreCase)
    ensures d == c + RunFrom(s, c, PySpace)
  {
    FlagBlanks(s, a, b, c, d, n);
    FlagLetters(s, a, b, c, d, n);
    AmpersandBlanks(s, a, b, c, d, n);
  }

  lemma FlagBlanks(s: string, a: int, b: int, c: int, d: int, n: int)
    requires ShellClauseAt(s, a, b, c, d, n) && b < c
    ensures b == a + 2 + RunFrom(s, a + 2, PySpace)
  {
    RunFromExact(s, a + 2, PySpace, b - a - 2);
  }

  lemma FlagLetters(s: string, a: int, b: int, c: int, d: int, n: int)
    requires ShellClauseAt(s, a, b, c, d, n)
    ensures c == b + RunFrom(s, b, AzIgnoreCase)
  {
    RunFromExact(s, b, AzIgnoreCase, c - b);
  }

  lemma AmpersandBlanks(s: string, a: int, b: int, c: int, d: int, n: int)
    requires ShellClauseAt(s, a, b, c, d, n)
    ensures d == c + RunFrom(s, c, PySpace)
  {
    RunFromExact(s, c, PySpace, d - c);
  }

  lemma NoLettersAfterFlag(s: string, a: int, b: int, c: int, d: int, n: int)
    requires ShellClauseAt(s, a, b, c, d, n) && b == c
    ensures d == a + 2 + RunFrom(s, a + 2, PySpace)
    ensures d == d + RunFrom(s, d, AzIgnoreCase)
    ensures d == d + RunFrom(s, d, PySpace)
  {
    FlagBlanksToAmpersand(s, a, b, c, d, n);
    NoLettersAtAmpersand(s, a, b, c, d, n);
    NoBlanksAtAmpersand(s, a, b, c, d, n);
  }

  lemma FlagBlanksToAmpersand(s: string, a: int, b: int, c: int, d: int, n: int)
    requires ShellClauseAt(s, a, b, c, d, n) && b == c
    ensures d == a + 2 + RunFrom(s, a + 2, PySpace)
  {
    RunFromExact(s, a + 2, PySpace, d - a - 2);
  }

  lemma NoLettersAtAmpersand(s: string, a: int, b: int, c: int, d: int, n: int)
    requires ShellClauseAt(s, a, b, c, d, n)
    ensures d == d + RunFrom(s, d, AzIgnoreCase)
  {
    RunFromExact(s, d, AzIgnoreCase, 0);
  }

  lemma NoBlanksAtAmpersand(s: string, a: int, b: int, c: int, d: int, n: int)
    requires ShellClauseAt(s, a, b, c, d, n)
    ensures d == d + RunFrom(s, d, PySpace)
  {
    RunFromExact(s, d, PySpace, 0);
  }

  /** No prefix of `s` is a `set` clause when `ShellGroupLen` finds none. */
  lemma NoShellGroupPrefix(s: string, j: nat)
    requires ShellGroupLen(s) == 0
    requires 0 < j <= |s|
    ensures !IsShellGroup(s[..j])
  {
    if IsShellGroup(s[..j]) {
      var a, b, c, d :| ShellClauseAt(s[..j], a, b, c, d, |s[..j]|);
      ClausePrefix(s, a, b, c, d, j);
      ClauseFound(s, a, b, c, d, j);
      assert false;
    }
  }

  /** Length of the longest leading run of `set -X ... &&` groups. */
  function ShellRunLen(s: string): (n: nat)
    ensures n <= |s|
    ensures ShellGroupLen(s[n..]) == 0
  {
    RunLen(s, ShellGroupLen)
  }

  /** What `ShellRunLen` skips is a run of `set` clauses. */
  lemma {:induction false} ShellRunIsRun(s: string)
    ensures IsShellRun(s[..ShellRunLen(s)])
    decreases |s|
  {
    if ShellGroupLen(s) > 0 {
      ShellRunIsRun(s[ShellGroupLen(s)..]);
      ShellRunExtend(s);
    }
  }

  /** The run after the first clause, with that clause in front, is the run of the whole. */
  lemma ShellRunExtend(s: string)
    requires ShellGroupLen(s) > 0
    requires var rest := s[ShellGroupLen(s)..]; IsShellRun(rest[..ShellRunLen(rest)])
    ensures IsShellRun(s[..ShellRunLen(s)])
  {
    ShellRunLenStep(s);
    ShellGroupLenIsGroup(s);
    ShellRunCons(s, ShellGroupLen(s), ShellRunLen(s));
  }

  /** After a clause, the run goes on from the end of that clause. */
  lemma ShellRunLenStep(s: string)
    requires ShellGroupLen(s) > 0
    ensures ShellRunLen(s) == ShellGroupLen(s) + ShellRunLen(s[ShellGroupLen(s)..])
  {
  }

  /** A clause followed by a run is a run. */
  lemma ShellRunCons(s: string, g: nat, n: nat)
    requires 0 < g <= n <= |s| && IsShellGroup(s[..g]) && IsShellRun(s[g..][..n - g])
    ensures IsShellRun(s[..n])
  {
    assert s[..n][..g] == s[..g];
    assert s[..n][g..] == s[g..][..n - g];
  }

  /** A run of clauses stops at the end of the text or before a non-blank. */
  lemma {:induction false} ShellRunEndsOffBlank(s: string)
    ensures var n := ShellRunLen(s); 0 < n < |s| ==> !IsPySpace(s[n])
    decreases |s|
  {
    var g := ShellGroupLen(s);
    if g > 0 {
      ShellRunLenStep(s);
      var t := s[g..];
      ShellRunEndsOffBlank(t);
      var m := ShellRunLen(t);
      if 0 < m < |t| {
        assert s[g + m] == t[m];
      }
    }
  }

  /** `strip_shell_prefixes`: drop leading `set -e && `-style prefixes. */
  function StripShellPrefixes(command: string): (r: string)
    ensures IsSuffix(r, command)
  {
    command[ShellRunLen(command)..]
  }

  /**
   * The stripped text is a suffix of the command, what was removed is a run of
   * `set` clauses, and no prefix of what is left is another one: the match of
   * the regex is exactly the longest leading run.  When something was
   * removed, what is left does not start with a blank: the last clause's
   * `\s*` took all of them.
   */
  lemma StripShellPrefixesRemovesLongestRun(command: string)
    ensures var r := StripShellPrefixes(command);
      && |r| <= |command| && r == command[|command| - |r|..]
      && IsShellRun(command[..|command| - |r|])
      && (forall j :: 0 < j <= |r| ==> !IsShellGroup(r[..j]))
      && (|r| < |command| ==> r == [] || !IsPySpace(r[0]))
  {
    ShellStripRemovesRun(command);
    ShellStripOpensNoGroup(command);
    ShellStripStopsOffBlank(command);
  }

  /** The removed prefix is a run of `set` clauses. */
  lemma ShellStripRemovesRun(command: string)
    ensures var r := StripShellPrefixes(command);
      |r| <= |command| && r == command[|command| - |r|..] && IsShellRun(command[..|command| - |r|])
  {
    var r := StripShellPrefixes(command);
    assert |command| - |r| == ShellRunLen(command);
    ShellRunIsRun(command);
  }

  /** No prefix of what is left is another `set` clause. */
  lemma ShellStripOpensNoGroup(command: string)
    ensures var r := StripShellPrefixes(command); forall j :: 0 < j <= |r| ==> !IsShellGroup(r[..j])
  {
    var r := StripShellPrefixes(command);
    forall j | 0 < j <= |r| ensures !IsShellGroup(r[..j]) {
      NoShellGroupPrefix(r, j);
    }
  }

  /** What is left after removing a non-empty run does not start with a blank. */
  lemma ShellStripStopsOffBlank(command: string)
    ensures var r := StripShellPrefixes(command); |r| < |command| ==> r == [] || !IsPySpace(r[0])
  {
    var n := ShellRunLen(command);
    ShellRunEndsOffBlank(command);
    if 0 < n < |command| {
      assert command[n..][0] == command[n];
    }
  }

  lemma StripShellPrefixesIdempotent(command: string)
    ensures StripShellPrefixes(StripShellPrefixes(command)) == StripShellPrefixes(command)
  {
  }

  // ---------------------------------------------------------------------
  // normalize_bash_command
  // ---------------------------------------------------------------------

  /** `normalize_bash_command`: assignments first, then shell-option prefixes. */
  function NormalizeBashCommand(command: string): (r: string)
    ensures IsSuffix(r, command)
  {
    var t := StripEnvVars(command);
    var r := StripShellPrefixes(t);
    SuffixTransitive(command, t, r);
    r
  }

  /**
   * The normalised command is what is left after a run of assignments and then
   * a run of `set` clauses: neither run can be extended where it stops.
   */
  lemma NormalizeRemovesRuns(command: string)
    ensures exists e, k :: SplitsAt(command, e, k, NormalizeBashCommand(command))
  {
    var e, k := NormalizeSplit(command);
  }

  /**
   * `command[..e]` is a run of assignments that cannot be extended,
   * `command[e..k]` a run of `set` clauses that cannot be extended, and `r`
   * is the rest.  A non-empty run ends where the blanks after it end.
   */
  ghost predicate SplitsAt(command: string, e: int, k: int, r: string)
  {
    && 0 <= e <= k <= |command| && r == command[k..]
    && IsEnvRun(command[..e]) && OpensNoEnvGroup(command[e..])
    && IsShellRun(command[e..k]) && OpensNoShellGroup(r)
    && (0 < e ==> StopsOffBlank(command, e))
    && (e < k ==> StopsOffBlank(command, k))
  }

  /** Position `i` of `s` is its end or holds a non-blank. */
  predicate StopsOffBlank(s: string, i: int)
  {
    0 <= i <= |s| && (i == |s| || !IsPySpace(s[i]))
  }

  /** The two places where `NormalizeBashCommand` cuts the command. */
  lemma NormalizeSplit(command: string) returns (e: nat, k: nat)
    ensures SplitsAt(command, e, k, NormalizeBashCommand(command))
  {
    var t;
    e, t := EnvPart(command);
    k := ShellPart(command, e, t);
    SplitsAtIntro(command, e, k, NormalizeBashCommand(command));
  }

  lemma SplitsAtIntro(command: string, e: nat, k: nat, r: string)
    requires e <= k <= |command|
    requires r == command[k..]
    requires IsEnvRun(command[..e])
    requires OpensNoEnvGroup(command[e..])
    requires IsShellRun(command[e..k])
    requires OpensNoShellGroup(r)
    requires 0 < e ==> StopsOffBlank(command, e)
    requires e < k ==> StopsOffBlank(command, k)
    ensures SplitsAt(command, e, k, r)
  {
  }

  /** No non-empty prefix of `r` is one assignment group. */
  ghost predicate OpensNoEnvGroup(r: string)
  {
    forall j :: 0 < j <= |r| ==> !IsEnvGroup(r[..j])
  }

  /** No non-empty prefix of `r` is one `set` clause. */
  ghost predicate OpensNoShellGroup(r: string)
  {
    forall j :: 0 < j <= |r| ==> !IsShellGroup(r[..j])
  }

  /** The env-assignment half of `NormalizeBashCommand`: it keeps `command[e..]`. */
  lemma EnvPart(command: string) returns (e: nat, t: string)
    ensures t == StripEnvVars(command) && e <= |command| && t == command[e..]
    ensures IsEnvRun(command[..e]) && OpensNoEnvGroup(command[e..])
    ensures 0 < e ==> StopsOffBlank(command, e)
  {
    t := StripEnvVars(command);
    e := |command| - |t|;
    StripEnvVarsRemovesLongestRun(command);
    if 0 < e < |command| {
      assert t[0] == command[e];
    }
  }

  /** The `set` half of `NormalizeBashCommand`, placed after the env run ending at `e`. */
  lemma ShellPart(command: string, e: nat, t: string) returns (k: nat)
    requires e <= |command| && t == command[e..] && t == StripEnvVars(command)
    ensures e <= k <= |command|
    ensures NormalizeBashCommand(command) == command[k..]
    ensures IsShellRun(command[e..k])
    ensures OpensNoShellGroup(command[k..])
    ensures e < k ==> StopsOffBlank(command, k)
  {
    k := ShellPartRun(command, e, t);
    ShellPartRest(command, e, t, k);
  }

  lemma ShellPartRun(command: string, e: nat, t: string) returns (k: nat)
    requires e <= |command| && t == command[e..]
    ensures k == e + ShellRunLen(t) && k <= |command| && IsShellRun(command[e..k])
  {
    var m := ShellRunLen(t);
    k := e + m;
    ShellRunIsRun(t);
    assert command[e..k] == t[..m];
    ShellRunAlong(t[..m], command[e..k]);
  }

  lemma ShellRunAlong(p: string, q: string)
    requires p == q && IsShellRun(p)
    ensures IsShellRun(q)
  {
  }

  lemma ShellPartRest(command: string, e: nat, t: string, k: nat)
    requires e <= |command| && t == command[e..] && t == StripEnvVars(command)
    requires k == e + ShellRunLen(t) && k <= |command|
    ensures NormalizeBashCommand(command) == command[k..]
    ensures OpensNoShellGroup(command[k..])
    ensures e < k ==> StopsOffBlank(command, k)
  {
    var m := ShellRunLen(t);
    var r := StripShellPrefixes(t);
    StripShellPrefixesRemovesLongestRun(t);
    assert command[e + m..] == r;
    NoShellGroupAlong(r, command[e + m..]);
    if e < k < |command| {
      assert r[0] == command[k];
    }
  }

  lemma NoShellGroupAlong(r: string, r': string)
    requires r == r' && forall j :: 0 < j <= |r| ==> !IsShellGroup(r[..j])
    ensures OpensNoShellGroup(r')
  {
  }

  /** A command that starts `set -X && ` with single blanks opens with a ten-character group. */
  lemma SingleSetGroup(s: string)
    requires |s| > 10 && MatchesS(s[0]) && s[1] == 'e' && s[2] == 't' && s[3] == ' ' && s[4] == '-'
    requires MatchesFlag(s[5]) && s[6] == ' ' && s[7] == '&' && s[8] == '&' && s[9] == ' ' && !IsPySpace(s[10])
    ensures ShellGroupLen(s) == 10
  {
    RunFromExact(s, 3, PySpace, 1);
    RunFromExact(s, 6, PySpace, 1);
    RunFromExact(s, 7, AzIgnoreCase, 0);
    RunFromExact(s, 7, PySpace, 0);
    RunFromExact(s, 9, PySpace, 1);
  }

  /** A `set -X` whose flag is followed by another letter is no group. */
  lemma LongFlagNoGroup(s: string)
    requires |s| >= 7 && MatchesS(s[0]) && s[1] == 'e' && s[2] == 't' && s[3] == ' ' && s[4] == '-'
    requires MatchesFlag(s[5]) && !IsPySpace(s[6])
    ensures ShellGroupLen(s) == 0
  {
    RunFromExact(s, 3, PySpace, 1);
    RunFromExact(s, 6, PySpace, 0);
  }

  /** A command whose leading word is not followed by `=` holds no assignment. */
  lemma NoLeadingAssignment(s: string, w: nat)
    requires w <= |s| && forall i :: 0 <= i < w ==> IsWordChar(s[i])
    requires w == |s| || (!IsWordChar(s[w]) && s[w] != '=')
    ensures StripEnvVars(s) == s
  {
    RunFromExact(s, 0, Word, w);
  }

  lemma SetPrefixGroup(c: string)
    requires c == "set -e && A=1 ls"
    ensures ShellGroupLen(c) == 10
  {
    SingleSetGroup(c);
  }

  lemma SetPrefixStripped(c: string)
    requires c == "set -e && A=1 ls"
    ensures StripEnvVars(c) == c
    ensures StripShellPrefixes(c) == "A=1 ls"
  {
    SetPrefixKeptByEnvStrip(c);
    SetPrefixGroup(c);
    ShellStripAfterGroup(c);
    var d := c[10..];
    assert d == "A=1 ls";
    AssignmentKeptByShellStrip(d);
  }

  lemma SetPrefixKeptByEnvStrip(c: string)
    requires c == "set -e && A=1 ls"
    ensures StripEnvVars(c) == c
  {
    NoLeadingAssignment(c, 3);
  }

  /** A command that opens with a clause strips to what the rest strips to. */
  lemma ShellStripAfterGroup(c: string)
    requires ShellGroupLen(c) > 0
    ensures StripShellPrefixes(c) == StripShellPrefixes(c[ShellGroupLen(c)..])
  {
    ShellRunLenStep(c);
  }

  lemma AssignmentKeptByShellStrip(d: string)
    requires d == "A=1 ls"
    ensures StripShellPrefixes(d) == d
    ensures StripEnvVars(d) == "ls"
  {
    AssignmentNotShellPrefix(d);
    AssignmentStripped(d);
  }

  lemma AssignmentNotShellPrefix(d: string)
    requires d == "A=1 ls"
    ensures StripShellPrefixes(d) == d
  {
    RunFromExact(d, 0, Word, 1);
  }

  lemma AssignmentStripped(d: string)
    requires d == "A=1 ls"
    ensures StripEnvVars(d) == "ls"
  {
    RunFromExact(d, 0, Word, 1);
    RunFromExact(d, 2, NonPySpace, 1);
    RunFromExact(d, 3, PySpace, 1);
    assert EnvGroupLen(d) == 4;
    PlainCommandKept(d[4..]);
  }

  lemma PlainCommandKept(e: string)
    requires e == "ls"
    ensures StripEnvVars(e) == e
    ensures StripShellPrefixes(e) == e
  {
    RunFromExact(e, 0, Word, 2);
  }

  /**
   * The composed normaliser is not idempotent: an assignment that follows a
   * shell-option prefix survives one pass and is removed by the next.
   */
  lemma NormalizeNotIdempotent()
    ensures NormalizeBashCommand("set -e && A=1 ls") == "A=1 ls"
    ensures NormalizeBashCommand("A=1 ls") == "ls"
  {
    SetPrefixStripped("set -e && A=1 ls");
    AssignmentKeptByShellStrip("A=1 ls");
    PlainCommandKept("ls");
  }

  /** `set -euo pipefail && ` is not a recognised prefix: the flag must be one letter. */
  lemma CombinedFlagsNotStripped(c: string)
    requires c == "set -euo pipefail && ls"
    ensures NormalizeBashCommand(c) == c
  {
    LongFlagNoGroup(c);
    NoLeadingAssignment(c, 3);
    NormalizeKeeps(c);
  }

  /** A command with no leading assignment and no leading shell-option group is left as it is. */
  lemma NormalizeKeeps(c: string)
    requires StripEnvVars(c) == c && ShellGroupLen(c) == 0
    ensures NormalizeBashCommand(c) == c
  {
  }

  /** An assignment with nothing after it is not stripped (`\s+` needs a blank). */
  lemma BareAssignmentKept(c: string)
    requires c == "A=1"
    ensures NormalizeBashCommand(c) == c
  {
    RunFromExact(c, 0, Word, 1);
    RunFromExact(c, 2, NonPySpace, 1);
    assert StripEnvVars(c) == c;
    assert ShellGroupLen(c) == 0;
  }
}
