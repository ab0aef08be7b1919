/**
 * The pure helpers of the extension's unified view: checks on GitHub URLs
 * and backend specs, the issue number found in a run's output, quote
 * stripping, which command a "Rerun" repeats, the action buttons shown
 * under a plan, and the cap on a progress widget's events.
 */
module ViewHelpers {
  import opened Wrappers
  import opened Text
  import opened SessionState

  // ---------------------------------------------------------------------
  // isValidGitHubUrl
  // ---------------------------------------------------------------------

  const GitHubPrefix: string := "https://github.com/"

  /** Every character is a decimal digit and there is at least one (`\d+`). */
  predicate IsNumber(s: string) { s != [] && AllDigits(s) }

  /** `^https://github\.com/[^/]+/[^/]+/(?:issues|pull)/\d+$`. */
  predicate IsValidGitHubUrl(url: string) {
    && |url| >= |GitHubPrefix| && url[..|GitHubPrefix|] == GitHubPrefix
    && var parts := Split(url[|GitHubPrefix|..], '/');
       && |parts| == 4 && parts[0] != [] && parts[1] != []
       && (parts[2] == "issues" || parts[2] == "pull") && IsNumber(parts[3])
  }

  /** The canonical URL of an issue or pull request. */
  function GitHubUrl(owner: string, repo: string, kind: string, number: string): string {
    GitHubPrefix + (owner + ['/'] + (repo + ['/'] + (kind + ['/'] + number)))
  }

  /** A concatenation sliced at the end of its first part. */
  lemma PrefixSlices(pre: string, tail: string)
    ensures (pre + tail)[..|pre|] == pre && (pre + tail)[|pre|..] == tail
  {
  }

  /** The two kinds of item hold no '/'. */
  lemma KindNoSlash(kind: string)
    requires kind == "issues" || kind == "pull"
    ensures '/' !in kind
  {
    assert forall i :: 0 <= i < |kind| ==> kind[i] != '/';
  }

  /** A number holds no '/'. */
  lemma NumberNoSlash(number: string)
    requires IsNumber(number)
    ensures '/' !in number
  {
    assert forall i :: 0 <= i < |number| ==> IsDigit(number[i]);
  }

  /** Four pieces free of '/' joined by '/' split back into those four. */
  lemma SplitPath4(a: string, b: string, c: string, d: string)
    requires '/' !in a && '/' !in b && '/' !in c && '/' !in d
    ensures Split(a + ['/'] + (b + ['/'] + (c + ['/'] + d)), '/') == [a, b, c, d]
  {
    var cd := c + ['/'] + d;
    var bcd := b + ['/'] + cd;
    SplitTwo(c, d, '/');
    SplitCons(b, cd, '/');
    SplitCons(a, bcd, '/');
    ConsTwice(a, b, Split(a + ['/'] + bcd, '/'), Split(bcd, '/'), [c, d]);
  }

  /** A sequence that is `a` before a sequence that is `b` before `z` is `[a, b] + z`. */
  lemma ConsTwice<T>(a: T, b: T, x: seq<T>, y: seq<T>, z: seq<T>)
    requires x == [a] + y && y == [b] + z
    ensures x == [a, b] + z
  {
  }

  /** Four pieces joined by `sep`. */
  lemma Join4(parts: seq<string>, sep: string)
    requires |parts| == 4
    ensures Join(parts, sep) == parts[0] + sep + (parts[1] + sep + (parts[2] + sep + parts[3]))
  {
    assert Join(parts[3..], sep) == parts[3];
    assert parts[2..][1..] == parts[3..];
    assert Join(parts[2..], sep) == parts[2] + sep + parts[3];
    assert parts[1..][1..] == parts[2..];
    assert Join(parts[1..], sep) == parts[1] + sep + Join(parts[2..], sep);
  }

  /** Every canonical issue or pull request URL is accepted. */
  lemma GitHubUrlValid(owner: string, repo: string, kind: string, number: string)
    requires owner != [] && repo != [] && '/' !in owner && '/' !in repo
    requires (kind == "issues" || kind == "pull") && IsNumber(number)
    ensures IsValidGitHubUrl(GitHubUrl(owner, repo, kind, number))
  {
    KindNoSlash(kind);
    NumberNoSlash(number);
    PrefixSlices(GitHubPrefix, owner + ['/'] + (repo + ['/'] + (kind + ['/'] + number)));
    SplitPath4(owner, repo, kind, number);
  }

  /** Every accepted URL is the canonical URL of its four path pieces. */
  lemma GitHubUrlCanonical(url: string)
    requires IsValidGitHubUrl(url)
    ensures var parts := Split(url[|GitHubPrefix|..], '/');
      url == GitHubUrl(parts[0], parts[1], parts[2], parts[3])
  {
    var rest := url[|GitHubPrefix|..];
    JoinSplit(rest, '/');
    Join4(Split(rest, '/'), "/");
    assert url == url[..|GitHubPrefix|] + rest;
  }

  // ---------------------------------------------------------------------
  // extractIssueNumber
  // ---------------------------------------------------------------------

  const PlaceholderPhrase: string := "Created placeholder issue #"

  /** The digits of `\d+` at position `i`, if any. */
  function DigitsAt(s: string, i: nat): Option<string>
    requires i <= |s|
  {
    var n := RunFrom(s, i, Digit);
    if n > 0 then Some(s[i..i + n]) else None
  }

  /** `Created placeholder issue #(\d+)` matched at position `p`. */
  function PlaceholderAt(s: string, p: nat): Option<string>
    requires p <= |s|
  {
    if OccursAt(s, PlaceholderPhrase, p) then DigitsAt(s, p + |PlaceholderPhrase|) else None
  }

  /** `https://github\.com/[^/]+/[^/]+/issues/(\d+)` matched at position `p`. */
  function IssueUrlAt(s: string, p: nat): Option<string>
    requires p <= |s|
  {
    if !OccursAt(s, GitHubPrefix, p) then None
    else
      var a := p + |GitHubPrefix|;
      var n1 := RunFrom(s, a, NotSlash);
      if n1 == 0 || a + n1 == |s| then None
      else
        var b := a + n1 + 1;
        var n2 := RunFrom(s, b, NotSlash);
        if n2 == 0 || b + n2 == |s| then None
        else
          var c := b + n2 + 1;
          if OccursAt(s, "issues/", c) then DigitsAt(s, c + 7) else None
  }

  /** Which of the two patterns a search is for. */
  datatype Pattern = Placeholder | IssueUrl

  function MatchAt(s: string, p: nat, pat: Pattern): Option<string>
    requires p <= |s|
  {
    match pat
    case Placeholder => PlaceholderAt(s, p)
    case IssueUrl => IssueUrlAt(s, p)
  }

  /** The match at each position of `s`, the end included. */
  function Matches(s: string, pat: Pattern): (ms: seq<Option<string>>)
    ensures |ms| == |s| + 1
  {
    seq(|s| + 1, q requires 0 <= q <= |s| => MatchAt(s, q, pat))
  }

  /** `pat.exec(s)`: the leftmost match at or after `p`. */
  function FirstMatch(s: string, p: nat, pat: Pattern): Option<string>
    requires p <= |s|
  {
    FirstSome(Matches(s, pat), p)
  }

  /** A search from `p` returns the match at some later position, and finds nothing only when no position matches. */
  lemma FirstMatchSpec(s: string, p: nat, pat: Pattern)
    requires p <= |s|
    ensures var r := FirstMatch(s, p, pat);
      && (r.Some? ==> exists q :: p <= q <= |s| && MatchAt(s, q, pat) == r)
      && (r.None? ==> forall q :: p <= q <= |s| ==> MatchAt(s, q, pat).None?)
  {
    var ms := Matches(s, pat);
    FirstSomeSpec(ms, p);
    if FirstMatch(s, p, pat).Some? {
      var q :| p <= q < |ms| && ms[q] == FirstMatch(s, p, pat);
      assert MatchAt(s, q, pat) == ms[q];
    } else {
      forall q | p <= q <= |s| ensures MatchAt(s, q, pat).None? {
        assert MatchAt(s, q, pat) == ms[q];
      }
    }
  }

  /** The leftmost match starting exactly at `q` wins. */
  lemma FirstMatchAt(s: string, p: nat, q: nat, pat: Pattern)
    requires p <= q <= |s|
    requires forall j :: p <= j < q ==> MatchAt(s, j, pat).None?
    requires MatchAt(s, q, pat).Some?
    ensures FirstMatch(s, p, pat) == MatchAt(s, q, pat)
  {
    var ms := Matches(s, pat);
    forall j | p <= j < q ensures ms[j].None? {
      assert ms[j] == MatchAt(s, j, pat);
    }
    assert ms[q] == MatchAt(s, q, pat);
    FirstSomeAt(ms, p, q);
  }

  /** `extractIssueNumber`: the placeholder message's number, else an issue URL's. */
  function ExtractIssueNumber(line: string): Option<string> {
    match FirstMatch(line, 0, Placeholder)
    case Some(n) => Some(n)
    case None => FirstMatch(line, 0, IssueUrl)
  }

  /** A match's captured digits are a number. */
  lemma DigitsAtNumber(s: string, i: nat)
    requires i <= |s|
    ensures DigitsAt(s, i).Some? ==> IsNumber(DigitsAt(s, i).value)
  {
    var t := s[i..i + RunFrom(s, i, Digit)];
    forall k | 0 <= k < |t| ensures IsDigit(t[k]) {
      assert t[k] == s[i + k];
    }
  }

  /** Whatever is extracted is a decimal number; the placeholder message is preferred over a URL. */
  lemma ExtractIssueNumberSpec(line: string)
    ensures ExtractIssueNumber(line).Some? ==> IsNumber(ExtractIssueNumber(line).value)
    ensures FirstMatch(line, 0, Placeholder).Some? ==> ExtractIssueNumber(line) == FirstMatch(line, 0, Placeholder)
  {
    var r := ExtractIssueNumber(line);
    if r.Some? {
      var pat := if FirstMatch(line, 0, Placeholder).Some? then Placeholder else IssueUrl;
      FirstMatchSpec(line, 0, pat);
      var q :| 0 <= q <= |line| && MatchAt(line, q, pat) == r;
      if pat == Placeholder {
        DigitsAtNumber(line, q + |PlaceholderPhrase|);
      } else {
        ByUrlDigits(line, q);
      }
    }
  }

  /** The digits an issue URL match captures are a number. */
  lemma ByUrlDigits(s: string, p: nat)
    requires p <= |s|
    ensures IssueUrlAt(s, p).Some? ==> IsNumber(IssueUrlAt(s, p).value)
  {
    if IssueUrlAt(s, p).Some? {
      var a := p + |GitHubPrefix|;
      var b := a + RunFrom(s, a, NotSlash) + 1;
      var c := b + RunFrom(s, b, NotSlash) + 1;
      DigitsAtNumber(s, c + 7);
    }
  }

  /** The digits at position `i` are exactly `number` when a non-digit (or the end) follows it. */
  lemma DigitsAtSuffix(s: string, i: nat, number: string, rest: string)
    requires i <= |s| && s[i..] == number + rest && IsNumber(number)
    requires rest == [] || !IsDigit(rest[0])
    ensures DigitsAt(s, i) == Some(number)
  {
    forall j | i <= j < i + |number| ensures InClass(s[j], Digit) {
      assert s[j] == s[i..][j - i];
    }
    assert i + |number| < |s| ==> s[i + |number|] == s[i..][|number|];
    RunFromExact(s, i, Digit, |number|);
    assert s[i..i + |number|] == s[i..][..|number|];
  }

  /** A run of non-slashes up to the next '/', and what follows it. */
  lemma NotSlashRunAt(s: string, i: nat, seg: string, tail: string)
    requires i <= |s| && s[i..] == seg + ['/'] + tail && '/' !in seg
    ensures i + |seg| < |s| && RunFrom(s, i, NotSlash) == |seg| && s[i + |seg| + 1..] == tail
  {
    forall j | i <= j < i + |seg| ensures InClass(s[j], NotSlash) {
      assert s[j] == s[i..][j - i] == seg[j - i];
    }
    assert s[i + |seg|] == s[i..][|seg|];
    RunFromExact(s, i, NotSlash, |seg|);
    assert s[i + |seg| + 1..] == s[i..][|seg| + 1..];
  }

  /** A pattern that starts the suffix at `p` occurs there, and what follows it. */
  lemma PatternAt(s: string, p: nat, pat: string, tail: string)
    requires p <= |s| && s[p..] == pat + tail
    ensures OccursAt(s, pat, p) && s[p + |pat|..] == tail
  {
    assert s[p..p + |pat|] == s[p..][..|pat|];
    assert s[p + |pat|..] == s[p..][|pat|..];
  }

  /** The URL pattern's steps, each matched at its position, make a match. */
  lemma IssueUrlAtSteps(s: string, p: nat, a: nat, b: nat, c: nat, number: string)
    requires OccursAt(s, GitHubPrefix, p) && a == p + |GitHubPrefix|
    requires a < b < |s| && RunFrom(s, a, NotSlash) == b - 1 - a && b - 1 - a > 0
    requires b < c < |s| && RunFrom(s, b, NotSlash) == c - 1 - b && c - 1 - b > 0
    requires OccursAt(s, "issues/", c) && DigitsAt(s, c + 7) == Some(number)
    ensures IssueUrlAt(s, p) == Some(number)
  {
    assert a + RunFrom(s, a, NotSlash) + 1 == b;
    assert b + RunFrom(s, b, NotSlash) + 1 == c;
  }

  /** `issues/` and a number at position `c`. */
  lemma IssueTail(s: string, c: nat, number: string, rest: string)
    requires c <= |s| && s[c..] == "issues/" + (number + rest)
    requires IsNumber(number) && (rest == [] || !IsDigit(rest[0]))
    ensures OccursAt(s, "issues/", c) && DigitsAt(s, c + 7) == Some(number)
  {
    PatternAt(s, c, "issues/", number + rest);
    DigitsAtSuffix(s, c + 7, number, rest);
  }

  /** The repository, then `/issues/` and a number, at position `b`; `c` is where `issues/` starts. */
  lemma RepoTail(s: string, b: nat, c: nat, repo: string, number: string, rest: string)
    requires b <= |s| && s[b..] == repo + ['/'] + ("issues/" + (number + rest)) && c == b + |repo| + 1
    requires repo != [] && '/' !in repo && IsNumber(number) && (rest == [] || !IsDigit(rest[0]))
    ensures c < |s| && RunFrom(s, b, NotSlash) == c - 1 - b
    ensures OccursAt(s, "issues/", c) && DigitsAt(s, c + 7) == Some(number)
  {
    NotSlashRunAt(s, b, repo, "issues/" + (number + rest));
    IssueTail(s, c, number, rest);
  }

  /** The owner, the repository, then `/issues/` and a number, at position `a`; `b` is where the repository starts. */
  lemma OwnerTail(s: string, a: nat, b: nat, owner: string, repo: string, number: string, rest: string)
    requires a <= |s| && s[a..] == owner + ['/'] + (repo + ['/'] + ("issues/" + (number + rest))) && b == a + |owner| + 1
    requires owner != [] && '/' !in owner && repo != [] && '/' !in repo
    requires IsNumber(number) && (rest == [] || !IsDigit(rest[0]))
    ensures b < |s| && RunFrom(s, a, NotSlash) == b - 1 - a
    ensures s[b..] == repo + ['/'] + ("issues/" + (number + rest))
  {
    NotSlashRunAt(s, a, owner, repo + ['/'] + ("issues/" + (number + rest)));
  }

  /** An issue URL at position `p` yields its number. */
  lemma IssueUrlAtParts(s: string, p: nat, owner: string, repo: string, number: string, rest: string)
    requires OccursAt(s, GitHubPrefix, p)
    requires s[p + |GitHubPrefix|..] == owner + ['/'] + (repo + ['/'] + ("issues/" + (number + rest)))
    requires owner != [] && repo != [] && '/' !in owner && '/' !in repo
    requires IsNumber(number) && (rest == [] || !IsDigit(rest[0]))
    ensures IssueUrlAt(s, p) == Some(number)
  {
    var a := p + |GitHubPrefix|;
    var b := a + |owner| + 1;
    var c := b + |repo| + 1;
    OwnerTail(s, a, b, owner, repo, number, rest);
    RepoTail(s, b, c, repo, number, rest);
    IssueUrlAtSteps(s, p, a, b, c, number);
  }

  /** A line starting with the placeholder message yields its number. */
  lemma PlaceholderExtracted(number: string, rest: string)
    requires IsNumber(number) && (rest == [] || !IsDigit(rest[0]))
    ensures ExtractIssueNumber(PlaceholderPhrase + (number + rest)) == Some(number)
  {
    var line := PlaceholderPhrase + (number + rest);
    PrefixSlices(PlaceholderPhrase, number + rest);
    DigitsAtSuffix(line, |PlaceholderPhrase|, number, rest);
    FirstMatchAt(line, 0, 0, Placeholder);
  }

  /** A line starting with an issue URL, and without the placeholder message, yields the URL's number. */
  lemma IssueUrlExtracted(line: string, owner: string, repo: string, number: string, rest: string)
    requires line == GitHubPrefix + (owner + ['/'] + (repo + ['/'] + ("issues/" + (number + rest))))
    requires owner != [] && repo != [] && '/' !in owner && '/' !in repo
    requires IsNumber(number) && (rest == [] || !IsDigit(rest[0]))
    requires FirstMatch(line, 0, Placeholder).None?
    ensures ExtractIssueNumber(line) == Some(number)
  {
    PatternAt(line, 0, GitHubPrefix, owner + ['/'] + (repo + ['/'] + ("issues/" + (number + rest))));
    IssueUrlAtParts(line, 0, owner, repo, number, rest);
    FirstMatchAt(line, 0, 0, IssueUrl);
  }

  // ---------------------------------------------------------------------
  // stripQuotes and isValidBackendSpec
  // ---------------------------------------------------------------------

  /** The string starts and ends with the same quote character, `"` or `'`. */
  predicate QuoteWrapped(t: string) {
    |t| > 0 && ((t[0] == '"' && t[|t| - 1] == '"') || (t[0] == '\'' && t[|t| - 1] == '\''))
  }

  /** `stripQuotes`: trim, then drop one matching pair of outer quotes; a lone quote gives "". */
  function StripQuotes(value: string): string {
    var t := JsTrim(value);
    if QuoteWrapped(t) then (if |t| >= 2 then t[1..|t| - 1] else "") else t
  }

  /** A quoted value comes back without its quotes, whatever is inside; an unquoted trimmed value comes back unchanged. */
  lemma StripQuotesSpec(q: char, x: string, v: string)
    requires q == '"' || q == '\''
    ensures StripQuotes([q] + x + [q]) == x
    ensures StripQuotes([q]) == ""
    ensures JsTrim(v) == v && !QuoteWrapped(v) ==> StripQuotes(v) == v
  {
    var w := [q] + x + [q];
    StripByNoEdges(w, JsSpace);
    assert w[1..|w| - 1] == x;
    StripByNoEdges([q], JsSpace);
  }

  /** No ECMAScript whitespace anywhere (`!/\s/.test(s)`). */
  predicate NoJsSpace(s: string) { forall i :: 0 <= i < |s| ==> !IsJsSpace(s[i]) }

  /** `isValidBackendSpec`: after trimming, a non-empty provider before the first ':' and a non-empty model after it, neither with whitespace. */
  predicate IsValidBackendSpec(spec: string) {
    var t := JsTrim(spec);
    match IndexOf(t, ':')
    case None => false
    case Some(k) => 0 < k < |t| - 1 && NoJsSpace(t[..k]) && NoJsSpace(t[k + 1..])
  }

  /**
   * A spec is valid exactly when its trimmed form is `provider:model` with
   * a provider free of ':' and both parts non-empty and free of whitespace;
   * the model may hold further colons.
   */
  lemma BackendSpecSpec(spec: string, provider: string, model: string)
    requires provider != [] && model != [] && ':' !in provider && NoJsSpace(provider) && NoJsSpace(model)
    ensures IsValidBackendSpec(provider + ":" + model)
    ensures IsValidBackendSpec(spec) ==>
      var t := JsTrim(spec);
      var k := IndexOf(t, ':').value;
      && t == t[..k] + ":" + t[k + 1..]
      && t[..k] != [] && t[k + 1..] != [] && ':' !in t[..k] && NoJsSpace(t[..k]) && NoJsSpace(t[k + 1..])
  {
    var s := provider + ":" + model;
    assert s[0] == provider[0] && s[|s| - 1] == model[|model| - 1];
    StripByNoEdges(s, JsSpace);
    IndexOfAfter(provider, model, ':');
    assert s[..|provider|] == provider && s[|provider| + 1..] == model;
    var t := JsTrim(spec);
    IndexOfFirst(t, ':');
    if IndexOf(t, ':').Some? {
      SliceAround(t, IndexOf(t, ':').value);
    }
  }

  // ---------------------------------------------------------------------
  // The progress-event cap
  // ---------------------------------------------------------------------

  const ProgressEventLimit: nat := 200

  /** `[...events, entry].slice(-200)`. */
  function CapProgressEvents<T>(events: seq<T>, entry: T): seq<T> {
    var all := events + [entry];
    if |all| <= ProgressEventLimit then all else all[|all| - ProgressEventLimit..]
  }

  /** The newest 200 events are kept, ending with the one just recorded. */
  lemma CapProgressEventsSpec<T>(events: seq<T>, entry: T)
    ensures var r := CapProgressEvents(events, entry);
      && |r| == (if |events| < ProgressEventLimit then |events| + 1 else ProgressEventLimit)
      && r[|r| - 1] == entry
      && r[..|r| - 1] == events[|events| + 1 - |r|..]
  {
  }

  // ---------------------------------------------------------------------
  // resolveRerunInvocation
  // ---------------------------------------------------------------------

  /** The command a rerun repeats, with its prompt and issue number where it has them. */
  datatype Invocation = Invocation(commandType: RunCommand, prompt: Option<string>, issueNumber: Option<string>)

  /** `(x ?? fallback ?? '').trim()`. */
  function TrimmedOr(x: Option<string>, fallback: Option<string>): string {
    JsTrim(if x.Some? then x.value else fallback.GetOr(""))
  }

  /** The run `[...runs].sort(by updatedAt, newest first).find(status === 'error')` picks: the newest failed run, the earliest of equals. */
  function LatestFailedRun(runs: seq<RefineRun>): (r: Option<nat>)
    ensures r.Some? ==> r.value < |runs| && runs[r.value].status == Error
    ensures r.None? ==> forall k :: 0 <= k < |runs| ==> runs[k].status != Error
    ensures r.Some? ==> forall k :: 0 <= k < |runs| && runs[k].status == Error ==>
      runs[k].updatedAt <= runs[r.value].updatedAt && (k < r.value ==> runs[k].updatedAt < runs[r.value].updatedAt)
  {
    if runs == [] then None
    else match LatestFailedRun(runs[1..])
      case None => if runs[0].status == Error then Some(0) else None
      case Some(j) =>
        if runs[0].status == Error && runs[0].updatedAt >= runs[1..][j].updatedAt then Some(0) else Some(j + 1)
  }

  /**
   * `resolveRerunInvocation`: a configured rerun decides (a refine needs a
   * prompt and a numeric issue, an impl an issue); without one, a failed
   * implementation is re-implemented, else the newest failed refinement is
   * repeated, else a failed plan is refined (with an issue) or re-planned.
   */
  function ResolveRerunInvocation(s: PlanSession): Option<Invocation> {
    if s.rerun.Some? && s.rerun.value.commandType == RefineCommand then
      var prompt := JsTrim(s.rerun.value.prompt.GetOr(""));
      var issue := TrimmedOr(s.rerun.value.issueNumber, s.issueNumber);
      if prompt == "" || !IsNumber(issue) then None else Some(Invocation(RefineCommand, Some(prompt), Some(issue)))
    else if s.rerun.Some? && s.rerun.value.commandType == ImplCommand then
      var issue := TrimmedOr(s.rerun.value.issueNumber, s.issueNumber);
      if issue == "" then None else Some(Invocation(ImplCommand, None, Some(issue)))
    else if s.rerun.Some? && s.rerun.value.commandType == PlanCommand then
      Some(Invocation(PlanCommand, None, None))
    else if s.implStatus == Error then
      var issue := TrimmedOr(s.issueNumber, None);
      if issue == "" then None else Some(Invocation(ImplCommand, None, Some(issue)))
    else match LatestFailedRun(s.refineRuns)
      case Some(k) =>
        var issue := TrimmedOr(s.issueNumber, None);
        if issue == "" then None else Some(Invocation(RefineCommand, Some(s.refineRuns[k].prompt), Some(issue)))
      case None =>
        if s.status == Error then
          (if TrimmedOr(s.issueNumber, None) != "" then Some(Invocation(RefineCommand, Some(s.prompt), Some(TrimmedOr(s.issueNumber, None))))
           else Some(Invocation(PlanCommand, None, None)))
        else None
  }

  /** A trimmed-or-fallback value is trimmed. */
  lemma TrimmedOrTrimmed(x: Option<string>, fallback: Option<string>)
    ensures JsTrim(TrimmedOr(x, fallback)) == TrimmedOr(x, fallback)
  {
    TrimIdempotent(if x.Some? then x.value else fallback.GetOr(""));
  }

  /**
   * Every invocation is complete for its command: a refine has a prompt and
   * a non-empty trimmed issue (numeric, with a non-blank prompt, when the
   * rerun was configured), an impl a non-empty trimmed issue, a plan
   * neither.
   */
  lemma ResolveRerunComplete(s: PlanSession)
    ensures CompleteInvocation(s, ResolveRerunInvocation(s))
  {
    if s.rerun.Some? {
      ConfiguredRerunComplete(s);
    } else {
      FallbackRerunComplete(s);
    }
  }

  /** What `ResolveRerunComplete` promises of the invocation `r` resolved for `s`. */
  predicate CompleteInvocation(s: PlanSession, r: Option<Invocation>) {
    && (r.Some? && r.value.commandType == PlanCommand ==> r.value.prompt.None? && r.value.issueNumber.None?)
    && (r.Some? && r.value.commandType != PlanCommand ==>
          r.value.issueNumber.Some? && r.value.issueNumber.value != "" && JsTrim(r.value.issueNumber.value) == r.value.issueNumber.value)
    && (r.Some? && r.value.commandType == RefineCommand ==> r.value.prompt.Some?)
    && (s.rerun.Some? && s.rerun.value.commandType == RefineCommand && r.Some? ==>
          r.value.issueNumber.Some? && IsNumber(r.value.issueNumber.value)
          && r.value.prompt.Some? && r.value.prompt.value != "")
  }

  /** The case of `ResolveRerunComplete` with a configured rerun. */
  lemma ConfiguredRerunComplete(s: PlanSession)
    requires s.rerun.Some?
    ensures CompleteInvocation(s, ResolveRerunInvocation(s))
  {
    TrimmedOrTrimmed(s.rerun.value.issueNumber, s.issueNumber);
  }

  /** The case of `ResolveRerunComplete` without a configured rerun. */
  lemma FallbackRerunComplete(s: PlanSession)
    requires s.rerun.None?
    ensures CompleteInvocation(s, ResolveRerunInvocation(s))
  {
    TrimmedOrTrimmed(s.issueNumber, None);
  }

  /**
   * Without a configured rerun: when nothing failed there is nothing to
   * rerun, and a failed implementation is only ever re-implemented.
   */
  lemma ResolveRerunFallback(s: PlanSession)
    requires s.rerun.None?
    ensures s.implStatus != Error && s.status != Error
            && (forall k :: 0 <= k < |s.refineRuns| ==> s.refineRuns[k].status != Error)
            ==> ResolveRerunInvocation(s).None?
    ensures s.implStatus == Error ==>
      ResolveRerunInvocation(s).None? || ResolveRerunInvocation(s).value.commandType == ImplCommand
  {
  }

  /**
   * A configured rerun decides alone: the command resolved is the one
   * configured, and the statuses and refinement runs play no part, so an
   * incomplete configured rerun does not fall through to them.
   */
  lemma ConfiguredRerunDecides(s: PlanSession, implStatus: Status, status: Status, runs: seq<RefineRun>)
    requires s.rerun.Some?
    ensures ResolveRerunInvocation(s).Some? ==> ResolveRerunInvocation(s).value.commandType == s.rerun.value.commandType
    ensures ResolveRerunInvocation(s) == ResolveRerunInvocation(s.(implStatus := implStatus, status := status, refineRuns := runs))
  {
  }

  /** Trimming twice is trimming once. */
  lemma TrimIdempotent(s: string)
    ensures JsTrim(JsTrim(s)) == JsTrim(s)
  {
    StripByEdges(s, JsSpace);
    StripByNoEdges(JsTrim(s), JsSpace);
  }

  // ---------------------------------------------------------------------
  // buildActionButtons
  // ---------------------------------------------------------------------

  datatype Variant = Primary | Secondary

  datatype Button = Button(id: string, caption: string, action: string, variant: Variant, disabled: bool)

  /** A string field that is set and not blank (`Boolean(x?.trim())`). */
  predicate Filled(x: Option<string>) { x.Some? && JsTrim(x.value) != "" }

  /** The session is planning, refining or implementing. */
  predicate Busy(s: PlanSession) { s.phase == "planning" || s.phase == "refining" || s.phase == "implementing" }

  /** `session.actionMode ?? 'default'`. */
  function ActionMode(s: PlanSession): string { s.actionMode.GetOr("default") }

  /** `buildActionButtons`. */
  function BuildActionButtons(s: PlanSession): seq<Button> {
    var planDone := s.status == Success || s.status == Error;
    var issueClosed := s.issueState == Some("closed");
    var isPlanning := s.phase == "planning";
    var isRefining := s.phase == "refining";
    var isImplementing := s.phase == "implementing";
    var mode := ActionMode(s);
    if Busy(s) && mode == "rerun" then [Button("rerun", "Rerunning...", "plan/rerun", Primary, true)]
    else if Busy(s) && mode == "refine" then [Button("refine", "Running...", "plan/refine", Secondary, true)]
    else if Busy(s) && mode == "implement" then [Button("implement", "Running...", "plan/impl", Primary, true)]
    else
      var implLabel :=
        if s.implStatus == Running then "Running..."
        else if s.implStatus == Error then "Re-implement"
        else if issueClosed then "Closed"
        else "Implement";
      var row := [
        Button("view-plan", "View Plan", "plan/view-plan", Secondary, !Filled(s.planPath) || !planDone),
        Button("view-issue", "View Issue", "plan/view-issue", Secondary, !Filled(s.issueNumber)),
        Button("implement", implLabel, "plan/impl", Primary,
               s.status != Success || issueClosed || isPlanning || isRefining || s.implStatus == Running),
        Button("refine", "Refine", "plan/refine", Secondary, !planDone || isPlanning || isImplementing || isRefining),
        Button("rerun", "Rerun", "plan/rerun", Secondary,
               Busy(s) || (s.rerun.Some? && s.rerun.value.lastExitCode == Some(0)) || ResolveRerunInvocation(s).None?)
      ];
      if s.implStatus == Success && s.prUrl.Some? && s.prUrl.value != "" then
        row + [Button("view-pr", "View PR", "plan/view-pr", Primary, false)]
      else row
  }

  /** The ids of a row of buttons, in order. */
  function Ids(bs: seq<Button>): seq<string> {
    seq(|bs|, k requires 0 <= k < |bs| => bs[k].id)
  }

  /** The enabled button with the given id is in the row. */
  predicate Enabled(bs: seq<Button>, id: string) {
    exists k :: 0 <= k < |bs| && bs[k].id == id && !bs[k].disabled
  }

  /** A busy session whose running action was chosen from the row: only that action is shown. */
  predicate Pinned(s: PlanSession) {
    Busy(s) && (ActionMode(s) == "rerun" || ActionMode(s) == "refine" || ActionMode(s) == "implement")
  }

  /** In a row whose `k`-th button alone has the id, that id is enabled exactly when that button is. */
  lemma EnabledAt(bs: seq<Button>, k: nat, id: string)
    requires k < |bs| && bs[k].id == id
    requires forall j :: 0 <= j < |bs| && j != k ==> bs[j].id != id
    ensures Enabled(bs, id) <==> !bs[k].disabled
  {
  }

  /**
   * A pinned session shows one disabled button for its action; otherwise
   * the full row of five, plus "View PR" exactly after a successful
   * implementation with a PR URL.
   */
  lemma BuildActionButtonsLayout(s: PlanSession)
    ensures var bs := BuildActionButtons(s);
      && (Pinned(s) ==> |bs| == 1 && bs[0].disabled && bs[0].id == ActionMode(s)
                        && forall id :: !Enabled(bs, id))
      && (!Pinned(s) ==>
            && |bs| >= 5
            && Ids(bs)[..5] == ["view-plan", "view-issue", "implement", "refine", "rerun"]
            && (|bs| == 6 <==> s.implStatus == Success && s.prUrl.Some? && s.prUrl.value != "")
            && (|bs| == 5 || |bs| == 6)
            && (|bs| == 6 ==> bs[5].id == "view-pr" && !bs[5].disabled))
  {
    if Pinned(s) {
      PinnedLayout(s);
    } else {
      UnpinnedLayout(s);
    }
  }

  /** A pinned session shows its one disabled mode button. */
  lemma PinnedLayout(s: PlanSession)
    requires Pinned(s)
    ensures var bs := BuildActionButtons(s);
      |bs| == 1 && bs[0].disabled && bs[0].id == ActionMode(s) && forall id :: !Enabled(bs, id)
  {
  }

  /** An unpinned session shows the row of five, and "View PR" after a successful implementation with a PR URL. */
  lemma UnpinnedLayout(s: PlanSession)
    requires !Pinned(s)
    ensures var bs := BuildActionButtons(s);
      && |bs| >= 5
      && Ids(bs)[..5] == ["view-plan", "view-issue", "implement", "refine", "rerun"]
      && (|bs| == 6 <==> s.implStatus == Success && s.prUrl.Some? && s.prUrl.value != "")
      && (|bs| == 5 || |bs| == 6)
      && (|bs| == 6 ==> bs[5].id == "view-pr" && !bs[5].disabled)
  {
    var bs := BuildActionButtons(s);
    assert Ids(bs)[..5] == [bs[0].id, bs[1].id, bs[2].id, bs[3].id, bs[4].id];
  }

  /** The ids of the full row, "View PR" last. */
  const RowIds: seq<string> := ["view-plan", "view-issue", "implement", "refine", "rerun", "view-pr"]

  /** No two ids of the full row are the same. */
  lemma RowIdsUnique()
    ensures forall i, j :: 0 <= i < |RowIds| && 0 <= j < |RowIds| && i != j ==> RowIds[i] != RowIds[j]
  {
  }

  /** An unpinned row carries the ids of the full row, in order. */
  lemma RowIdsInOrder(s: PlanSession)
    requires !Pinned(s)
    ensures var bs := BuildActionButtons(s);
      5 <= |bs| <= |RowIds| && forall j :: 0 <= j < |bs| ==> bs[j].id == RowIds[j]
  {
    UnpinnedLayout(s);
    var bs := BuildActionButtons(s);
    var first := Ids(bs)[..5];
    forall j | 0 <= j < |bs|
      ensures bs[j].id == RowIds[j]
    {
      if j < 5 {
        assert bs[j].id == first[j];
      }
    }
  }

  /** The ids of the full row are distinct. */
  lemma RowIdsDistinct(s: PlanSession, k: nat)
    requires !Pinned(s) && k < 5
    ensures var bs := BuildActionButtons(s);
      k < |bs| && forall j :: 0 <= j < |bs| && j != k ==> bs[j].id != bs[k].id
  {
    RowIdsInOrder(s);
    RowIdsUnique();
  }

  /** Implementing is offered exactly for an open issue of a successful plan with nothing else running. */
  lemma ImplementEnabled(s: PlanSession)
    ensures Enabled(BuildActionButtons(s), "implement") <==>
      !Pinned(s) && s.status == Success && s.issueState != Some("closed")
      && s.phase != "planning" && s.phase != "refining" && s.implStatus != Running
  {
    BuildActionButtonsLayout(s);
    if !Pinned(s) {
      RowIdsDistinct(s, 2);
      EnabledAt(BuildActionButtons(s), 2, "implement");
    }
  }

  /** Refining is offered exactly for a finished plan while nothing runs. */
  lemma RefineEnabled(s: PlanSession)
    ensures Enabled(BuildActionButtons(s), "refine") <==>
      !Pinned(s) && (s.status == Success || s.status == Error) && !Busy(s)
  {
    BuildActionButtonsLayout(s);
    if !Pinned(s) {
      RowIdsDistinct(s, 3);
      EnabledAt(BuildActionButtons(s), 3, "refine");
    }
  }

  /** Rerunning is offered exactly for an idle session with a rerun target whose last run did not exit with 0. */
  lemma RerunEnabled(s: PlanSession)
    ensures Enabled(BuildActionButtons(s), "rerun") <==>
      !Busy(s) && !(s.rerun.Some? && s.rerun.value.lastExitCode == Some(0)) && ResolveRerunInvocation(s).Some?
  {
    BuildActionButtonsLayout(s);
    if !Pinned(s) {
      RowIdsDistinct(s, 4);
      EnabledAt(BuildActionButtons(s), 4, "rerun");
    }
  }
}
