/**
 * The polling server (`python/agentize/server/__main__.py`): the period and
 * remote-URL parsers, the discovery filters, the PR-to-issue resolver, and
 * one cycle of the poll loop over the worker slots.
 *
 * The project board items and PR list are the decoded GitHub replies, as
 * typed records.  `wt pathto`, `wt spawn`, `wt rebase` and the pid probe
 * are oracles.
 */
module PollServer {
  import opened Wrappers
  import opened Text
  import opened WorkerSlots

  // ---------------------------------------------------------------------
  // parse_period
  // ---------------------------------------------------------------------

  /** `parse_period`: "<N>m" is N minutes, "<N>s" is N seconds; anything else raises ValueError. */
  function ParsePeriod(period: string): (r: Result<int>)
    ensures r.Err? ==> r.error == "ValueError"
  {
    if |period| > 0 && period[|period| - 1] == 'm' then
      match ParsePyInt(period[..|period| - 1])
      case None => Err("ValueError")
      case Some(n) => Ok(n * 60)
    else if |period| > 0 && period[|period| - 1] == 's' then
      match ParsePyInt(period[..|period| - 1])
      case None => Err("ValueError")
      case Some(n) => Ok(n)
    else Err("ValueError")
  }

  lemma PeriodRoundTrip(n: int)
    ensures ParsePeriod(IntToDecimal(n) + "m") == Ok(60 * n)
    ensures ParsePeriod(IntToDecimal(n) + "s") == Ok(n)
  {
    var d := IntToDecimal(n);
    assert (d + "m")[..|d|] == d;
    assert (d + "s")[..|d|] == d;
    IntDecimalRoundTrip(n);
  }

  /** The sign goes through `int()`, so "-1m" is -60 seconds; a bare number raises. */
  lemma PeriodQuirks()
    ensures ParsePeriod("-1m") == Ok(-60)
    ensures ParsePeriod("5").Err?
  {
    PeriodRoundTrip(-1);
    assert IntToDecimal(-1) == "-1";
  }

  // ---------------------------------------------------------------------
  // _extract_repo_slug
  // ---------------------------------------------------------------------

  /** What `(?:\.git)?$` accepts: nothing, or `.git`, each optionally before one final newline. */
  predicate SlugEnding(t: string) {
    t == "" || t == "\n" || t == ".git" || t == ".git\n"
  }

  /** The lazy `([^/]+?)`: the shortest non-empty cut after which the ending matches. */
  function LazyCut(tail: string, k: nat): (r: nat)
    requires 1 <= k <= |tail|
    ensures k <= r <= |tail| && SlugEnding(tail[r..])
    ensures forall m :: k <= m < r ==> !SlugEnding(tail[m..])
    decreases |tail| - k
  {
    if SlugEnding(tail[k..]) then k else LazyCut(tail, k + 1)
  }

  /** `([^/]+)/([^/]+?)(?:\.git)?$` on the text after the host. */
  function SlugOf(rest: string): Option<string> {
    var o := Span(rest, NotSlash);
    if o == 0 || o == |rest| then None
    else
      var tail := rest[o + 1..];
      if |tail| == 0 || '/' in tail then None
      else Some(rest[..o] + "/" + tail[..LazyCut(tail, 1)])
  }

  /** `_extract_repo_slug`: the HTTPS form, then the SSH form. */
  function ExtractRepoSlug(url: string): Option<string> {
    if url == "" then None
    else if "https://github.com/" <= url then SlugOf(url[19..])
    else if "git@github.com:" <= url then SlugOf(url[15..])
    else None
  }

  predicate SlugPart(s: string) {
    |s| > 0 && '/' !in s && '\n' !in s
  }

  lemma LazyCutIs(tail: string, k: nat, m: nat)
    requires 1 <= k <= m <= |tail|
    requires SlugEnding(tail[m..])
    requires forall j :: k <= j < m ==> !SlugEnding(tail[j..])
    ensures LazyCut(tail, k) == m
  {
  }

  lemma OwnerSpan(owner: string, tail: string)
    requires SlugPart(owner)
    ensures Span(owner + "/" + tail, NotSlash) == |owner|
    ensures (owner + "/" + tail)[..|owner|] == owner && (owner + "/" + tail)[|owner| + 1..] == tail
  {
    var s := owner + "/" + tail;
    assert forall i :: 0 <= i < |owner| ==> s[i] == owner[i];
    SpanExact(s, NotSlash, |owner|);
  }

  /** A name that does not end in `.git` is its own cut. */
  lemma RepoCutPlain(repo: string)
    requires SlugPart(repo)
    requires |repo| >= 4 ==> repo[|repo| - 4..] != ".git"
    ensures LazyCut(repo, 1) == |repo|
  {
    forall j | 1 <= j < |repo|
      ensures !SlugEnding(repo[j..])
    {
      PlainSuffix(repo, j);
    }
    assert repo[|repo|..] == "";
    LazyCutIs(repo, 1, |repo|);
  }

  /** No proper suffix of a slug part that does not end in ".git" is an ending. */
  lemma PlainSuffix(repo: string, j: nat)
    requires SlugPart(repo) && 1 <= j < |repo|
    requires |repo| >= 4 ==> repo[|repo| - 4..] != ".git"
    ensures !SlugEnding(repo[j..])
  {
    var t := repo[j..];
    assert t[|t| - 1] == repo[|repo| - 1] != '\n';
    if |t| == 4 {
      assert t == repo[|repo| - 4..];
    }
  }

  /** A suffix longer than ".git" of text ending in 't' is not an ending of the slug pattern. */
  lemma GitSuffix(tail: string, j: nat)
    requires j + 4 < |tail| && tail[|tail| - 1] == 't'
    ensures !SlugEnding(tail[j..])
  {
    var t := tail[j..];
    assert t[|t| - 1] == 't';
    assert t != ".git\n" by { assert ".git\n"[4] == '\n'; }
  }

  /** `name.git` is cut back to the name. */
  lemma RepoCutGit(repo: string)
    requires SlugPart(repo)
    ensures LazyCut(repo + ".git", 1) == |repo|
    ensures (repo + ".git")[..|repo|] == repo
  {
    var tail := repo + ".git";
    assert tail[|repo|..] == ".git";
    assert tail[|tail| - 1] == 't';
    forall j | 1 <= j < |repo|
      ensures !SlugEnding(tail[j..])
    {
      GitSuffix(tail, j);
    }
    LazyCutIs(tail, 1, |repo|);
  }

  lemma SlugOfPair(owner: string, r: string, repo: string)
    requires SlugPart(owner) && |r| > 0 && '/' !in r
    requires |repo| <= |r| && LazyCut(r, 1) == |repo| && r[..|repo|] == repo
    ensures SlugOf(owner + "/" + r) == Some(owner + "/" + repo)
  {
    OwnerSpan(owner, r);
  }

  lemma HttpsSlug(rest: string)
    ensures ExtractRepoSlug("https://github.com/" + rest) == SlugOf(rest)
  {
    var url := "https://github.com/" + rest;
    PrefixOfConcat("https://github.com/", rest);
    assert url[19..] == rest;
  }

  lemma SshSlug(rest: string)
    ensures ExtractRepoSlug("git@github.com:" + rest) == SlugOf(rest)
  {
    var url := "git@github.com:" + rest;
    PrefixOfConcat("git@github.com:", rest);
    assert url[1] == 'i';
    NotHttpsPrefix(url);
    assert url[15..] == rest;
  }

  /** A text starts with what was put in front of it. */
  lemma PrefixOfConcat(a: string, b: string)
    ensures a <= a + b
  {
    assert (a + b)[..|a|] == a;
  }

  /** A text whose second character is 'i' does not start with the HTTPS form. */
  lemma NotHttpsPrefix(url: string)
    requires |url| > 1 && url[1] == 'i'
    ensures url != "" && !("https://github.com/" <= url)
  {
    assert "https://github.com/"[1] == 't';
  }

  /** Both accepted forms give back "owner/repo", without `.git` ... */
  lemma SlugRoundTrip(owner: string, repo: string)
    requires SlugPart(owner) && SlugPart(repo)
    requires |repo| >= 4 ==> repo[|repo| - 4..] != ".git"
    ensures ExtractRepoSlug("https://github.com/" + (owner + "/" + repo)) == Some(owner + "/" + repo)
    ensures ExtractRepoSlug("git@github.com:" + (owner + "/" + repo)) == Some(owner + "/" + repo)
  {
    RepoCutPlain(repo);
    SlugOfPair(owner, repo, repo);
    HttpsSlug(owner + "/" + repo);
    SshSlug(owner + "/" + repo);
  }

  /** ... and with it. */
  lemma SlugRoundTripGit(owner: string, repo: string)
    requires SlugPart(owner) && SlugPart(repo)
    ensures ExtractRepoSlug("https://github.com/" + (owner + "/" + (repo + ".git"))) == Some(owner + "/" + repo)
    ensures ExtractRepoSlug("git@github.com:" + (owner + "/" + (repo + ".git"))) == Some(owner + "/" + repo)
  {
    RepoCutGit(repo);
    SlugOfPair(owner, repo + ".git", repo);
    HttpsSlug(owner + "/" + (repo + ".git"));
    SshSlug(owner + "/" + (repo + ".git"));
  }

  // ---------------------------------------------------------------------
  // get_repo_owner_name
  // ---------------------------------------------------------------------

  /** `s.split(pat)[1]`: the text between the first and second occurrence; IndexError without one. */
  function SecondPiece(s: string, pat: string): Result<string>
    requires |pat| > 0
  {
    match FindFrom(s, pat, 0)
    case None => Err("IndexError")
    case Some(j) =>
      var start := j + |pat|;
      match FindFrom(s, pat, start)
      case None => Ok(s[start..])
      case Some(k) => Ok(s[start..k])
  }

  /** One trailing '/' removed, then `.git`, then the first two '/'-segments. */
  function PathOwnerRepo(path: string): Result<(string, string)> {
    var parts := Split(DropGit(DropSlash(path)), '/');
    if |parts| >= 2 then Ok((parts[0], parts[1])) else Err("RuntimeError")
  }

  function DropSlash(p: string): string {
    if |p| > 0 && p[|p| - 1] == '/' then p[..|p| - 1] else p
  }

  function DropGit(p: string): string {
    if |p| >= 4 && p[|p| - 4..] == ".git" then p[..|p| - 4] else p
  }

  /** The URL parse of `get_repo_owner_name`; `None` is a failed `git remote get-url`. */
  function RepoOwnerName(remote: Option<string>): Result<(string, string)> {
    match remote
    case None => Err("RuntimeError")
    case Some(out) =>
      var url := PyStrip(out);
      if "git@" <= url then
        var parts := Split(url, ':');
        if |parts| < 2 then Err("IndexError") else PathOwnerRepo(parts[1])
      else if Contains(url, "github.com") then
        match SecondPiece(url, "github.com/")
        case Err(e) => Err(e)
        case Ok(path) => PathOwnerRepo(path)
      else Err("RuntimeError")
  }

  predicate PathSuffix(t: string) {
    t == "" || t == "/" || t == ".git" || t == ".git/"
  }

  /** A path whose last segment does not end in `.git` does not end in `.git`. */
  lemma NoGitEnding(owner: string, repo: string)
    requires '/' !in repo && |repo| > 0
    requires |repo| >= 4 ==> repo[|repo| - 4..] != ".git"
    ensures var base := owner + "/" + repo;
      !(|base| >= 4 && base[|base| - 4..] == ".git")
  {
    var base := owner + "/" + repo;
    if |base| >= 4 {
      var t := base[|base| - 4..];
      if |repo| >= 4 {
        assert t == repo[|repo| - 4..];
      } else {
        assert t[3 - |repo|] == '/';
      }
    }
  }

  /** The trailing '/' is removed, leaving "owner/repo" with or without `.git`. */
  lemma PathTrimmed(owner: string, repo: string, suffix: string)
    requires '/' !in repo && |repo| > 0 && PathSuffix(suffix)
    ensures DropSlash(owner + "/" + repo + suffix)
      == owner + "/" + repo + (if suffix == ".git" || suffix == ".git/" then ".git" else "")
  {
    var base := owner + "/" + repo;
    var path := base + suffix;
    if suffix == "" {
      assert path[|path| - 1] == repo[|repo| - 1];
      assert base + "" == base;
    } else if suffix == "/" {
      assert path[..|path| - 1] == base;
      assert base + "" == base;
    } else if suffix == ".git" {
      assert path[|path| - 1] == 't';
    } else {
      assert path[..|path| - 1] == base + ".git";
    }
  }

  lemma GitDropped(owner: string, repo: string, git: bool)
    requires '/' !in repo && |repo| > 0
    requires |repo| >= 4 ==> repo[|repo| - 4..] != ".git"
    ensures DropGit(owner + "/" + repo + (if git then ".git" else "")) == owner + "/" + repo
  {
    var base := owner + "/" + repo;
    if git {
      var p1 := base + ".git";
      assert p1[|p1| - 4..] == ".git";
      assert p1[..|p1| - 4] == base;
    } else {
      assert base + "" == base;
      NoGitEnding(owner, repo);
    }
  }

  /** "owner/repo", with `.git`, a trailing '/', or both, gives owner and repo. */
  lemma PathSegments(owner: string, repo: string, suffix: string)
    requires '/' !in owner && '/' !in repo && |repo| > 0 && PathSuffix(suffix)
    requires |repo| >= 4 ==> repo[|repo| - 4..] != ".git"
    ensures PathOwnerRepo(owner + "/" + repo + suffix) == Ok((owner, repo))
  {
    var base := owner + "/" + repo;
    PathTrimmed(owner, repo, suffix);
    GitDropped(owner, repo, suffix == ".git" || suffix == ".git/");
    SplitCons(owner, repo, '/');
    assert base == owner + ['/'] + repo;
    assert Split(base, '/') == [owner, repo];
  }

  /** The SSH form: everything after the first ':' is the path. */
  lemma SshRemote(path: string)
    requires ':' !in path
    requires path == [] || !IsPySpace(path[|path| - 1])
    ensures RepoOwnerName(Some("git@github.com" + ":" + path)) == PathOwnerRepo(path)
  {
    var url := "git@github.com" + ":" + path;
    SshUrlStripped(path);
    SshUrlSplit(path);
    assert "git@" <= url by {
      assert url[..4] == "git@";
    }
  }

  lemma SshUrlStripped(path: string)
    requires path == [] || !IsPySpace(path[|path| - 1])
    ensures PyStrip("git@github.com" + ":" + path) == "git@github.com" + ":" + path
  {
    var url := "git@github.com" + ":" + path;
    assert url[0] == 'g';
    assert url[|url| - 1] == if path == [] then ':' else path[|path| - 1];
    StripByNoEdges(url, PySpace);
  }

  lemma SshUrlSplit(path: string)
    requires ':' !in path
    ensures Split("git@github.com" + ":" + path, ':') == ["git@github.com", path]
  {
    var host := "git@github.com";
    assert ':' !in host by {
      forall k | 0 <= k < |host|
        ensures host[k] != ':'
      {
      }
    }
    SplitTwo(host, path, ':');
  }

  /** "github.com/" occurs in "https://github.com/<path>" only after "https://", unless again in the path. */
  lemma HttpsPiece(path: string)
    requires !Contains(path, "github.com/")
    ensures SecondPiece("https://github.com/" + path, "github.com/") == Ok(path)
  {
    var pat := "github.com/";
    var url := "https://" + pat + path;
    assert url == "https://github.com/" + path;
    assert url[8..19] == pat;
    assert OccursAt(url, pat, 8);
    var h := "https://";
    assert 'g' !in h;
    forall j | 0 <= j < 8
      ensures !OccursAt(url, pat, j)
    {
      assert url[j] == h[j];
    }
    assert FindFrom(url, pat, 0) == Some(8);
    forall j | 19 <= j
      ensures !OccursAt(url, pat, j)
    {
      if OccursAt(url, pat, j) {
        assert url[j..j + 11] == path[j - 19..j - 8];
        assert OccursAt(path, pat, j - 19);
      }
    }
    assert url[19..] == path;
  }

  /** The HTTPS form: the text after "github.com/" is the path. */
  lemma HttpsRemote(path: string)
    requires !Contains(path, "github.com/")
    requires path == [] || !IsPySpace(path[|path| - 1])
    ensures RepoOwnerName(Some("https://github.com/" + path)) == PathOwnerRepo(path)
  {
    var url := "https://github.com/" + path;
    assert url[|url| - 1] == if path == [] then '/' else path[|path| - 1];
    assert url[0] == 'h';
    StripByNoEdges(url, PySpace);
    assert !("git@" <= url);
    assert url[8..18] == "github.com";
    assert OccursAt(url, "github.com", 8);
    HttpsPiece(path);
  }

  /** A failed `git remote get-url` raises RuntimeError. */
  lemma NoRemoteRaises()
    ensures RepoOwnerName(None) == Err("RuntimeError")
  {
  }

  // ---------------------------------------------------------------------
  // filter_ready_issues
  // ---------------------------------------------------------------------

  /** An item's issue content: its number, when the key is present, and its label names. */
  datatype IssueContent = IssueContent(number: Option<int>, labels: seq<string>)

  /**
   * A project board item: `content` (None when absent, null or empty) and
   * the status name, when `fieldValueByName` is set and has one.
   */
  datatype ProjectItem = ProjectItem(content: Option<IssueContent>, statusName: Option<string>)

  predicate ReadyItem(item: ProjectItem) {
    item.content.Some? && item.content.value.number.Some?
    && item.statusName.GetOr("") == "Plan Accepted"
    && "agentize:plan" in item.content.value.labels
  }

  /** The numbers of the ready items, in input order. */
  function ReadyIssues(items: seq<ProjectItem>): (r: seq<int>)
    ensures |r| <= |items|
  {
    if |items| == 0 then []
    else
      var last := items[|items| - 1];
      ReadyIssues(items[..|items| - 1]) + (if ReadyItem(last) then [last.content.value.number.value] else [])
  }

  /** `filter_ready_issues`: skip items without a number, then wrong status, then a missing label. */
  method FilterReadyIssues(items: seq<ProjectItem>) returns (ready: seq<int>)
    ensures ready == ReadyIssues(items)
  {
    ready := [];
    var i := 0;
    while i < |items|
      invariant 0 <= i <= |items|
      invariant ready == ReadyIssues(items[..i])
    {
      var item := items[i];
      assert items[..i + 1][..i] == items[..i];
      if item.content.Some? && item.content.value.number.Some? {
        var status := item.statusName.GetOr("");
        if status == "Plan Accepted" && "agentize:plan" in item.content.value.labels {
          ready := ready + [item.content.value.number.value];
        }
      }
      i := i + 1;
    }
    assert items[..i] == items;
  }

  /** Filtering commutes with concatenation, so input order is kept. */
  lemma {:induction false} ReadyIssuesAppend(a: seq<ProjectItem>, b: seq<ProjectItem>)
    ensures ReadyIssues(a + b) == ReadyIssues(a) + ReadyIssues(b)
    decreases |b|
  {
    if |b| == 0 {
      assert a + b == a;
    } else {
      var b' := b[..|b| - 1];
      assert (a + b)[..|a + b| - 1] == a + b';
      ReadyIssuesAppend(a, b');
    }
  }

  /** A number is returned exactly when some ready item carries it. */
  lemma {:induction false} ReadyIssuesExact(items: seq<ProjectItem>, n: int)
    ensures n in ReadyIssues(items) <==>
      exists i :: 0 <= i < |items| && ReadyItem(items[i]) && items[i].content.value.number.value == n
    decreases |items|
  {
    if |items| > 0 {
      var init := items[..|items| - 1];
      ReadyIssuesExact(init, n);
      if exists i :: 0 <= i < |init| && ReadyItem(init[i]) && init[i].content.value.number.value == n {
        var i :| 0 <= i < |init| && ReadyItem(init[i]) && init[i].content.value.number.value == n;
        assert items[i] == init[i];
      }
      if exists i :: 0 <= i < |items| && ReadyItem(items[i]) && items[i].content.value.number.value == n {
        var i :| 0 <= i < |items| && ReadyItem(items[i]) && items[i].content.value.number.value == n;
        if i < |init| {
          assert init[i] == items[i];
        }
      }
    }
  }

  // ---------------------------------------------------------------------
  // filter_conflicting_prs and resolve_issue_from_pr
  // ---------------------------------------------------------------------

  /** The first entry of `closingIssuesReferences`: an object with a `number` key (its value possibly null), or anything else. */
  datatype ClosingRef = RefNumber(value: Option<int>) | NoNumber

  /** One entry of `gh pr list --json number,headRefName,mergeable,body,closingIssuesReferences`, with the defaults of the `.get` calls applied. */
  datatype PullRequest = PullRequest(number: Option<int>, headRefName: string, mergeable: string,
                                     closingRefs: seq<ClosingRef>, body: string)

  /** The numbers of the PRs whose mergeable field is CONFLICTING, in input order. */
  function ConflictingPrs(prs: seq<PullRequest>): (r: seq<Option<int>>)
    ensures |r| <= |prs|
  {
    if |prs| == 0 then []
    else
      var last := prs[|prs| - 1];
      ConflictingPrs(prs[..|prs| - 1]) + (if last.mergeable == "CONFLICTING" then [last.number] else [])
  }

  /** `filter_conflicting_prs`: CONFLICTING is queued; UNKNOWN and every other value are skipped. */
  method FilterConflictingPrs(prs: seq<PullRequest>) returns (conflicting: seq<Option<int>>)
    ensures conflicting == ConflictingPrs(prs)
  {
    conflicting := [];
    var i := 0;
    while i < |prs|
      invariant 0 <= i <= |prs|
      invariant conflicting == ConflictingPrs(prs[..i])
    {
      assert prs[..i + 1][..i] == prs[..i];
      var mergeable := prs[i].mergeable;
      if mergeable == "CONFLICTING" {
        conflicting := conflicting + [prs[i].number];
      } else if mergeable == "UNKNOWN" {
        // retried on the next poll
      }
      i := i + 1;
    }
    assert prs[..i] == prs;
  }

  lemma {:induction false} ConflictingPrsAppend(a: seq<PullRequest>, b: seq<PullRequest>)
    ensures ConflictingPrs(a + b) == ConflictingPrs(a) + ConflictingPrs(b)
    decreases |b|
  {
    if |b| == 0 {
      assert a + b == a;
    } else {
      var b' := b[..|b| - 1];
      assert (a + b)[..|a + b| - 1] == a + b';
      ConflictingPrsAppend(a, b');
    }
  }

  lemma {:induction false} ConflictingPrsExact(prs: seq<PullRequest>, n: Option<int>)
    ensures n in ConflictingPrs(prs) <==>
      exists i :: 0 <= i < |prs| && prs[i].mergeable == "CONFLICTING" && prs[i].number == n
    decreases |prs|
  {
    if |prs| > 0 {
      var init := prs[..|prs| - 1];
      ConflictingPrsExact(init, n);
      if exists i :: 0 <= i < |init| && init[i].mergeable == "CONFLICTING" && init[i].number == n {
        var i :| 0 <= i < |init| && init[i].mergeable == "CONFLICTING" && init[i].number == n;
        assert prs[i] == init[i];
      }
      if exists i :: 0 <= i < |prs| && prs[i].mergeable == "CONFLICTING" && prs[i].number == n {
        var i :| 0 <= i < |prs| && prs[i].mergeable == "CONFLICTING" && prs[i].number == n;
        if i < |init| {
          assert init[i] == prs[i];
        }
      }
    }
  }

  /** `re.match(r'issue-(\d+)', head_ref)`: "issue-" then the maximal digit run. */
  function BranchIssue(head: string): (r: Option<int>)
    ensures r.Some? <==> "issue-" <= head && |head| > 6 && IsDigit(head[6])
  {
    if "issue-" <= head && RunFrom(head, 6, Digit) > 0
    then Some(DigitsValue(head[6..6 + RunFrom(head, 6, Digit)]))
    else None
  }

  /** A '#' at `j` followed by a digit. */
  predicate HashAt(body: string, j: int) {
    0 <= j && j + 1 < |body| && body[j] == '#' && IsDigit(body[j + 1])
  }

  /** `re.search(r'#(\d+)', body)` from position `j` on: the leftmost '#' with a digit after it. */
  function HashNumberFrom(body: string, j: nat): (r: Option<int>)
    requires j <= |body|
    ensures r.None? <==> forall k :: j <= k ==> !HashAt(body, k)
    decreases |body| - j
  {
    if j + 1 >= |body| then None
    else if HashAt(body, j) then
      Some(DigitsValue(body[j + 1..j + 1 + RunFrom(body, j + 1, Digit)]))
    else HashNumberFrom(body, j + 1)
  }

  /** `resolve_issue_from_pr`: the branch name, then the first closing reference only, then the PR body. */
  function ResolveIssueFromPr(pr: PullRequest): Option<int> {
    match BranchIssue(pr.headRefName)
    case Some(n) => Some(n)
    case None =>
      if |pr.closingRefs| > 0 && pr.closingRefs[0].RefNumber? then pr.closingRefs[0].value
      else if pr.body != "" then HashNumberFrom(pr.body, 0)
      else None
  }

  /** The three sources in order: a later one is consulted only when every earlier one gives nothing. */
  lemma ResolutionOrder(pr: PullRequest)
    ensures BranchIssue(pr.headRefName).Some? ==> ResolveIssueFromPr(pr) == BranchIssue(pr.headRefName)
    ensures BranchIssue(pr.headRefName).None? && |pr.closingRefs| > 0 && pr.closingRefs[0].RefNumber? ==>
      ResolveIssueFromPr(pr) == pr.closingRefs[0].value
    ensures BranchIssue(pr.headRefName).None? && (|pr.closingRefs| == 0 || pr.closingRefs[0].NoNumber?) ==>
      ResolveIssueFromPr(pr) == HashNumberFrom(pr.body, 0)
    ensures ResolveIssueFromPr(pr).None? <==>
      BranchIssue(pr.headRefName).None?
      && (if |pr.closingRefs| > 0 && pr.closingRefs[0].RefNumber? then pr.closingRefs[0].value.None?
          else forall k :: 0 <= k ==> !HashAt(pr.body, k))
  {
  }

  /** A branch "issue-<n>" followed by a non-digit resolves to n. */
  lemma BranchRoundTrip(n: nat, rest: string)
    requires rest == "" || !IsDigit(rest[0])
    ensures BranchIssue("issue-" + NatToDecimal(n) + rest) == Some(n)
  {
    var d := NatToDecimal(n);
    var head := "issue-" + d + rest;
    assert head[..6] == "issue-";
    assert forall k :: 6 <= k < 6 + |d| ==> head[k] == d[k - 6];
    RunFromExact(head, 6, Digit, |d|);
    assert head[6..6 + |d|] == d;
    NatDecimalRoundTrip(n);
  }

  lemma {:induction false} HashSkips(body: string, j: nat, m: nat)
    requires j <= m < |body|
    requires forall k :: j <= k < m ==> !HashAt(body, k)
    requires HashAt(body, m)
    ensures HashNumberFrom(body, j) == HashNumberFrom(body, m)
    decreases m - j
  {
    if j < m {
      HashSkips(body, j + 1, m);
    }
  }

  /** The first "#<n>" in a body without an earlier '#' gives n. */
  lemma BodyRoundTrip(pre: string, n: nat, rest: string)
    requires '#' !in pre
    requires rest == "" || !IsDigit(rest[0])
    ensures HashNumberFrom(pre + "#" + NatToDecimal(n) + rest, 0) == Some(n)
  {
    var d := NatToDecimal(n);
    var body := pre + "#" + d + rest;
    var m := |pre|;
    assert body[m] == '#';
    assert body[m + 1..m + 1 + |d|] == d;
    forall k | 0 <= k < m
      ensures body[k] != '#'
    {
      assert body[k] == pre[k];
    }
    if rest != "" {
      assert body[m + 1 + |d|] == rest[0];
    }
    HashNumberAt(body, m, d);
    NatDecimalRoundTrip(n);
  }

  /** A '#' at `m` followed by the digit run `d` and then no digit, with no '#' before it, gives d's value. */
  lemma HashNumberAt(body: string, m: nat, d: string)
    requires d != [] && AllDigits(d) && m + 1 + |d| <= |body|
    requires body[m] == '#' && body[m + 1..m + 1 + |d|] == d
    requires m + 1 + |d| == |body| || !IsDigit(body[m + 1 + |d|])
    requires forall k :: 0 <= k < m ==> body[k] != '#'
    ensures HashNumberFrom(body, 0) == Some(DigitsValue(d))
  {
    HashDigitsAt(body, m, d);
    forall k | 0 <= k < m
      ensures !HashAt(body, k)
    {
    }
    HashSkips(body, 0, m);
  }

  /** The search started at such a '#' reads exactly the run `d`. */
  lemma HashDigitsAt(body: string, m: nat, d: string)
    requires d != [] && AllDigits(d) && m + 1 + |d| <= |body|
    requires body[m] == '#' && body[m + 1..m + 1 + |d|] == d
    requires m + 1 + |d| == |body| || !IsDigit(body[m + 1 + |d|])
    ensures HashAt(body, m)
    ensures HashNumberFrom(body, m) == Some(DigitsValue(d))
  {
    var e := m + 1 + |d|;
    forall j | m + 1 <= j < e
      ensures InClass(body[j], Digit)
    {
      assert body[j] == body[m + 1..e][j - m - 1];
    }
    RunFromExact(body, m + 1, Digit, |d|);
  }

  // ---------------------------------------------------------------------
  // One cycle of run_server
  // ---------------------------------------------------------------------

  /** What `run_shell_function` gave for `wt spawn` or `wt rebase`: exit code and stdout, or an exception. */
  datatype ShellRun = Exited(code: int, stdout: string) | ShellRaised

  /** The `(success, pid)` of `spawn_worktree` / `rebase_worktree`, or that the call raised. */
  datatype Launch = Launched(pid: Option<int>) | LaunchFailed | LaunchRaised

  function LaunchOf(run: ShellRun): (r: Launch)
    ensures r.LaunchRaised? <==> run.ShellRaised?
    ensures r.LaunchFailed? <==> run.Exited? && run.code != 0
    ensures r.Launched? ==> run.Exited? && run.code == 0 && r.pid == (match PidFromOutput(run.stdout) case None => None case Some(p) => Some(p as int))
  {
    match run
    case ShellRaised => LaunchRaised
    case Exited(code, stdout) =>
      if code != 0 then LaunchFailed
      else match PidFromOutput(stdout)
        case None => Launched(None)
        case Some(p) => Launched(Some(p))
  }

  /**
   * What the checks before the slot lookup decided for a candidate: skip it,
   * take it, or end the cycle because its `wt pathto` probe raised.
   */
  datatype Check = Skip | Take | ProbeRaised

  /**
   * One candidate of an assignment pass: the issue a slot would be taken
   * for, what the checks before the slot lookup decided (no worktree yet
   * for an issue; a resolved issue with a worktree for a PR), and what its
   * launch does.
   */
  datatype Job = Job(issue: int, check: Check, launch: Launch)

  datatype PassEnd = PassEnd(files: map<int, string>, raised: bool)

  /** The record written before the launch. */
  function Claim(issue: int): WorkerStatus {
    WorkerStatus("BUSY", Some(issue), None)
  }

  /**
   * The assignment loop (issue pass and rebase pass alike): skip the jobs
   * not taken; with `n > 0`, stop when no slot is FREE, else claim the first
   * FREE slot, launch, and record the pid or free the slot; with `n <= 0`,
   * launch without slots.  A raising probe or launch ends the pass and the
   * cycle.
   */
  function AssignJobs(files: map<int, string>, n: int, jobs: seq<Job>): PassEnd
    decreases |jobs|
  {
    if |jobs| == 0 then PassEnd(files, false)
    else
      var job := jobs[0];
      if job.check.ProbeRaised? then PassEnd(files, true)
      else if job.check.Skip? then AssignJobs(files, n, jobs[1..])
      else if n <= 0 then
        if job.launch.LaunchRaised? then PassEnd(files, true) else AssignJobs(files, n, jobs[1..])
      else
        match FirstFree(files, n)
        case None => PassEnd(files, false)
        case Some(w) =>
          var claimed := files[w := EncodeStatus(Claim(job.issue))];
          match job.launch
          case LaunchRaised => PassEnd(claimed, true)
          case Launched(pid) => AssignJobs(claimed[w := EncodeStatus(WorkerStatus("BUSY", Some(job.issue), pid))], n, jobs[1..])
          case LaunchFailed => AssignJobs(claimed[w := FreeRecord()], n, jobs[1..])
  }

  /**
   * `worktree_exists` as a check: the worktree is there when `wt pathto`
   * exits 0.  The issue pass takes a candidate whose worktree is missing,
   * the rebase pass one whose worktree is there; a raising probe ends the
   * cycle.
   */
  function ProbeCheck(run: ShellRun, takeWhenPresent: bool): (r: Check)
    ensures r.ProbeRaised? <==> run.ShellRaised?
    ensures r.Take? <==> run.Exited? && (run.code == 0) == takeWhenPresent
  {
    match run
    case ShellRaised => ProbeRaised
    case Exited(code, _) => if (code == 0) == takeWhenPresent then Take else Skip
  }

  /**
   * The issue pass: every ready issue, taken when it has no worktree yet.
   * `pathto(k, i)` and `spawn(k, i)` answer for the `k`-th ready issue `i`.
   */
  function IssueJobs(ready: seq<int>, pathto: (int, int) -> ShellRun, spawn: (int, int) -> ShellRun): (r: seq<Job>)
    ensures |r| == |ready|
    ensures forall k :: 0 <= k < |ready| ==>
      r[k] == Job(ready[k], ProbeCheck(pathto(k, ready[k]), false), LaunchOf(spawn(k, ready[k])))
  {
    seq(|ready|, k requires 0 <= k < |ready| => Job(ready[k], ProbeCheck(pathto(k, ready[k]), false), LaunchOf(spawn(k, ready[k]))))
  }

  predicate AllNumbered(prs: seq<PullRequest>) {
    forall i :: 0 <= i < |prs| ==> prs[i].number.Some?
  }

  /** `{pr['number']: pr for pr in prs}`: a later PR with the same number replaces an earlier one. */
  function Metadata(prs: seq<PullRequest>): (m: map<int, PullRequest>)
    requires AllNumbered(prs)
    ensures forall k :: k in m <==> exists i :: 0 <= i < |prs| && prs[i].number == Some(k)
  {
    if |prs| == 0 then map[]
    else
      var init := prs[..|prs| - 1];
      var last := prs[|prs| - 1];
      var m := Metadata(init)[last.number.value := last];
      assert forall i :: 0 <= i < |init| ==> init[i] == prs[i];
      m
  }

  /** The entry of a number is the last PR carrying it. */
  lemma {:induction false} MetadataLastWins(prs: seq<PullRequest>, i: nat)
    requires AllNumbered(prs) && i < |prs|
    requires forall j :: i < j < |prs| ==> prs[j].number != prs[i].number
    ensures Metadata(prs)[prs[i].number.value] == prs[i]
    decreases |prs|
  {
    if i < |prs| - 1 {
      var init := prs[..|prs| - 1];
      assert init[i] == prs[i];
      assert forall j :: i < j < |init| ==> init[j] == prs[j];
      MetadataLastWins(init, i);
    }
  }

  /**
   * The rebase pass job for the `k`-th conflicting PR number: an issue that
   * does not resolve is skipped unprobed, a resolved one is taken when
   * `wt pathto` finds its worktree.
   */
  function PrJob(k: int, prNo: Option<int>, meta: map<int, PullRequest>, pathto: (int, int) -> ShellRun,
                 rebase: (int, int) -> ShellRun): Job
  {
    // pr_metadata.get(pr_no, {}) resolves to None when the number is unknown
    var issue := if prNo.Some? && prNo.value in meta then ResolveIssueFromPr(meta[prNo.value]) else None;
    Job(issue.GetOr(0), if issue.Some? then ProbeCheck(pathto(k, issue.value), true) else Skip,
        if prNo.Some? then LaunchOf(rebase(k, prNo.value)) else LaunchFailed)
  }

  function PrJobs(conflicting: seq<Option<int>>, meta: map<int, PullRequest>, pathto: (int, int) -> ShellRun,
                  rebase: (int, int) -> ShellRun): (r: seq<Job>)
    ensures |r| == |conflicting|
    ensures forall k :: 0 <= k < |conflicting| ==> r[k] == PrJob(k, conflicting[k], meta, pathto, rebase)
  {
    seq(|conflicting|, k requires 0 <= k < |conflicting| => PrJob(k, conflicting[k], meta, pathto, rebase))
  }

  /**
   * What one cycle observes: the pid probe, the completion-notice oracles
   * of cleanup, the board items (None when the query raised), `wt pathto`
   * and `wt spawn` of the issue pass, `git remote get-url`, the PR list,
   * and `wt pathto` and `wt rebase` of the rebase pass.  Every call is
   * asked anew, by its position in its pass: a worktree spawned earlier in
   * the cycle is one the rebase pass may then find, and an issue listed
   * twice may get two different answers.
   */
  datatype World = World(alive: int -> bool, notify: bool, sessionDone: int -> bool, sent: int -> bool,
                         items: Option<seq<ProjectItem>>, pathto: (int, int) -> ShellRun,
                         spawn: (int, int) -> ShellRun, remote: Option<string>, prs: seq<PullRequest>,
                         rebasePathto: (int, int) -> ShellRun, rebase: (int, int) -> ShellRun)

  /**
   * The slot records and the by-issue index after one cycle: cleanup (for
   * `n > 0`), the issue pass over the cleaned slots, then the rebase pass
   * unless the issue pass raised, the owner lookup failed, or a PR lacks a
   * number.
   */
  function PollCycle(files: map<int, string>, index: set<int>, n: int, w: World): (map<int, string>, set<int>) {
    var files1 := if n > 0 then Cleaned(files, n, w.alive) else files;
    var index1 := if n > 0 then IndexAfter(files, index, n, w.alive, w.notify, w.sessionDone, w.sent) else index;
    match w.items
    case None => (files1, index1)
    case Some(items) =>
      var issues := AssignJobs(files1, n, IssueJobs(ReadyIssues(items), w.pathto, w.spawn));
      if issues.raised || RepoOwnerName(w.remote).Err? || !AllNumbered(w.prs) then (issues.files, index1)
      else
        var jobs := PrJobs(ConflictingPrs(w.prs), Metadata(w.prs), w.rebasePathto, w.rebase);
        (AssignJobs(issues.files, n, jobs).files, index1)
  }

  /** The assignment loop over the slot directory. */
  method AssignPass(dir: SlotDirectory, n: int, jobs: seq<Job>) returns (raised: bool)
    modifies dir
    ensures PassEnd(dir.files, raised) == AssignJobs(old(dir.files), n, jobs)
    ensures dir.issueIndex == old(dir.issueIndex)
  {
    ghost var files0 := dir.files;
    raised := false;
    var i := 0;
    while i < |jobs|
      invariant 0 <= i <= |jobs|
      invariant AssignJobs(files0, n, jobs) == AssignJobs(dir.files, n, jobs[i..])
      invariant dir.issueIndex == old(dir.issueIndex)
    {
      var job := jobs[i];
      assert jobs[i..][1..] == jobs[i + 1..];
      if job.check.ProbeRaised? {
        raised := true;
        return;
      }
      if job.check.Take? {
        if n > 0 {
          var w := dir.GetFreeWorker(n);
          if w.None? {
            return;
          }
          dir.WriteWorkerStatus(w.value, Claim(job.issue));
          match job.launch {
            case LaunchRaised =>
              raised := true;
              return;
            case Launched(pid) =>
              dir.WriteWorkerStatus(w.value, WorkerStatus("BUSY", Some(job.issue), pid));
            case LaunchFailed =>
              dir.WriteWorkerStatus(w.value, FreeStatus);
          }
        } else if job.launch.LaunchRaised? {
          raised := true;
          return;
        }
      }
      i := i + 1;
    }
  }

  /** The body of the `while running[0]` loop, up to the sleep. */
  method RunPollCycle(dir: SlotDirectory, n: int, w: World)
    modifies dir
    ensures (dir.files, dir.issueIndex) == PollCycle(old(dir.files), old(dir.issueIndex), n, w)
  {
    if n > 0 {
      dir.CleanupDeadWorkers(n, w.alive, w.notify, w.sessionDone, w.sent);
    }
    if w.items.None? {
      return;
    }
    var ready := FilterReadyIssues(w.items.value);
    var raised := AssignPass(dir, n, IssueJobs(ready, w.pathto, w.spawn));
    if raised || RepoOwnerName(w.remote).Err? {
      return;
    }
    var conflicting := FilterConflictingPrs(w.prs);
    if !AllNumbered(w.prs) {
      return;
    }
    raised := AssignPass(dir, n, PrJobs(conflicting, Metadata(w.prs), w.rebasePathto, w.rebase));
  }

  /** Server start: with `n > 0`, initialise the status files, then clean up dead slots. */
  method StartSlots(dir: SlotDirectory, n: int, readFails: int -> bool, w: World)
    modifies dir
    ensures dir.files == if n > 0 then Cleaned(Initialized(old(dir.files), n, readFails), n, w.alive) else old(dir.files)
    ensures dir.issueIndex ==
      if n > 0 then IndexAfter(Initialized(old(dir.files), n, readFails), old(dir.issueIndex), n, w.alive, w.notify, w.sessionDone, w.sent)
      else old(dir.issueIndex)
  {
    if n > 0 {
      dir.InitWorkerStatusFiles(n, readFails);
      dir.CleanupDeadWorkers(n, w.alive, w.notify, w.sessionDone, w.sent);
    }
  }

  /** Successive cycles, each on the state the previous one left. */
  function RunCycles(files: map<int, string>, index: set<int>, n: int, worlds: seq<World>): (map<int, string>, set<int>)
    decreases |worlds|
  {
    if |worlds| == 0 then (files, index)
    else
      var next := PollCycle(files, index, n, worlds[0]);
      RunCycles(next.0, next.1, n, worlds[1..])
  }

  // ---------------------------------------------------------------------
  // Properties of the cycle
  // ---------------------------------------------------------------------

  /** With `n <= 0` no launch writes a slot. */
  lemma {:induction false} AssignUnboundedKeeps(files: map<int, string>, n: int, jobs: seq<Job>)
    requires n <= 0
    ensures AssignJobs(files, n, jobs).files == files
    decreases |jobs|
  {
    if |jobs| > 0 {
      AssignUnboundedKeeps(files, n, jobs[1..]);
    }
  }

  /** `num_workers <= 0` bypasses the slots: no cleanup, no record written, the index untouched. */
  lemma NoSlotsBypass(files: map<int, string>, index: set<int>, n: int, w: World)
    requires n <= 0
    ensures PollCycle(files, index, n, w) == (files, index)
  {
    if w.items.Some? {
      var issues := AssignJobs(files, n, IssueJobs(ReadyIssues(w.items.value), w.pathto, w.spawn));
      AssignUnboundedKeeps(files, n, IssueJobs(ReadyIssues(w.items.value), w.pathto, w.spawn));
      if !(issues.raised || RepoOwnerName(w.remote).Err? || !AllNumbered(w.prs)) {
        AssignUnboundedKeeps(issues.files, n, PrJobs(ConflictingPrs(w.prs), Metadata(w.prs), w.rebasePathto, w.rebase));
      }
    }
  }

  /** A pass writes only slots it found FREE: any other slot keeps its record. */
  lemma {:induction false} AssignKeepsNonFree(files: map<int, string>, n: int, jobs: seq<Job>, v: int)
    requires StatusIn(files, v).state != "FREE"
    ensures v in files && v in AssignJobs(files, n, jobs).files
    ensures AssignJobs(files, n, jobs).files[v] == files[v]
    decreases |jobs|
  {
    if |jobs| > 0 {
      var job := jobs[0];
      if !job.check.Take? || n <= 0 {
        AssignKeepsNonFree(files, n, jobs[1..], v);
      } else if FirstFree(files, n).Some? {
        var u := FirstFree(files, n).value;
        assert u != v;
        var claimed := files[u := EncodeStatus(Claim(job.issue))];
        match job.launch
        case LaunchRaised =>
        case Launched(pid) =>
          var next := claimed[u := EncodeStatus(WorkerStatus("BUSY", Some(job.issue), pid))];
          assert next[v] == files[v];
          assert StatusIn(next, v) == StatusIn(files, v);
          AssignKeepsNonFree(next, n, jobs[1..], v);
        case LaunchFailed =>
          var next := claimed[u := FreeRecord()];
          assert next[v] == files[v];
          assert StatusIn(next, v) == StatusIn(files, v);
          AssignKeepsNonFree(next, n, jobs[1..], v);
      }
    }
  }

  /** Whether a `wt pathto` probe raises before the first candidate taken. */
  function RaisesBeforeTake(jobs: seq<Job>): bool
    decreases |jobs|
  {
    if |jobs| == 0 || jobs[0].check.Take? then false
    else jobs[0].check.ProbeRaised? || RaisesBeforeTake(jobs[1..])
  }

  /**
   * If no slot is FREE when the pass starts, nothing is launched and nothing
   * is written; the pass raises only through a probe before the first
   * candidate taken.
   */
  lemma {:induction false} NoFreeSlotSkipsRest(files: map<int, string>, n: int, jobs: seq<Job>)
    requires n > 0 && FirstFree(files, n).None?
    ensures AssignJobs(files, n, jobs) == PassEnd(files, RaisesBeforeTake(jobs))
    decreases |jobs|
  {
    if |jobs| > 0 && jobs[0].check.Skip? {
      NoFreeSlotSkipsRest(files, n, jobs[1..]);
    }
  }

  lemma WrittenSlot(files: map<int, string>, u: int, st: WorkerStatus)
    requires StorableState(st.state)
    ensures StatusIn(files[u := EncodeStatus(st)], u) == st
  {
    StatusRoundTrip(st);
  }

  /** A job taken takes the first FREE slot and, once launched, keeps it with the launch's pid to the end of the pass. */
  lemma LaunchedKeepsSlot(files: map<int, string>, n: int, job: Job, rest: seq<Job>, u: int)
    requires n > 0 && job.check.Take? && FirstFree(files, n) == Some(u) && job.launch.Launched?
    ensures StatusIn(AssignJobs(files, n, [job] + rest).files, u) == WorkerStatus("BUSY", Some(job.issue), job.launch.pid)
  {
    var jobs := [job] + rest;
    assert jobs[0] == job && jobs[1..] == rest;
    var claimed := files[u := EncodeStatus(Claim(job.issue))];
    var st := WorkerStatus("BUSY", Some(job.issue), job.launch.pid);
    var next := claimed[u := EncodeStatus(st)];
    assert AssignJobs(files, n, jobs) == AssignJobs(next, n, rest);
    assert StorableState("BUSY");
    WrittenSlot(claimed, u, st);
    AssignKeepsNonFree(next, n, rest, u);
  }

  /** A launch that raises ends the pass with its slot claimed: BUSY, the issue, no pid. */
  lemma RaisedLeavesClaim(files: map<int, string>, n: int, job: Job, rest: seq<Job>, u: int)
    requires n > 0 && job.check.Take? && FirstFree(files, n) == Some(u) && job.launch.LaunchRaised?
    ensures AssignJobs(files, n, [job] + rest) == PassEnd(files[u := EncodeStatus(Claim(job.issue))], true)
    ensures StatusIn(AssignJobs(files, n, [job] + rest).files, u) == Claim(job.issue)
  {
    var jobs := [job] + rest;
    assert jobs[0] == job && jobs[1..] == rest;
    assert StorableState("BUSY");
    WrittenSlot(files, u, Claim(job.issue));
  }

  /** A launch that returns False frees its slot again before the next job. */
  lemma FailedFreesSlot(files: map<int, string>, n: int, job: Job, rest: seq<Job>, u: int)
    requires n > 0 && job.check.Take? && FirstFree(files, n) == Some(u) && job.launch.LaunchFailed?
    ensures AssignJobs(files, n, [job] + rest) == AssignJobs(files[u := FreeRecord()], n, rest)
    ensures StatusIn(files[u := FreeRecord()], u) == FreeStatus
  {
    var jobs := [job] + rest;
    assert jobs[0] == job && jobs[1..] == rest;
    var claimed := files[u := EncodeStatus(Claim(job.issue))];
    var freed := files[u := FreeRecord()];
    assert claimed[u := FreeRecord()] == freed;
    assert AssignJobs(files, n, jobs) == AssignJobs(claimed[u := FreeRecord()], n, rest);
    assert StorableState("FREE");
    WrittenSlot(files, u, FreeStatus);
  }

  /** A slot left BUSY with no pid survives a whole cycle unchanged: cleanup sees it live and no pass takes it. */
  lemma StrandedSlotPersists(files: map<int, string>, index: set<int>, n: int, w: World, v: int)
    requires StatusIn(files, v).state == "BUSY" && StatusIn(files, v).pid.None?
    ensures v in files && v in PollCycle(files, index, n, w).0
    ensures PollCycle(files, index, n, w).0[v] == files[v]
  {
    assert v in files;
    var files1 := if n > 0 then Cleaned(files, n, w.alive) else files;
    if n > 0 {
      BusyWithoutPidIsLive(files, v, w.alive);
      CleanupFreesExactlyDead(files, n, w.alive, v);
    }
    assert files1[v] == files[v];
    assert StatusIn(files1, v) == StatusIn(files, v);
    if w.items.Some? {
      var jobs := IssueJobs(ReadyIssues(w.items.value), w.pathto, w.spawn);
      var issues := AssignJobs(files1, n, jobs);
      AssignKeepsNonFree(files1, n, jobs, v);
      assert StatusIn(issues.files, v) == StatusIn(files, v);
      if !(issues.raised || RepoOwnerName(w.remote).Err? || !AllNumbered(w.prs)) {
        AssignKeepsNonFree(issues.files, n, PrJobs(ConflictingPrs(w.prs), Metadata(w.prs), w.rebasePathto, w.rebase), v);
      }
    }
  }

  /** ... and so it is never reclaimed, however many cycles follow. */
  lemma {:induction false} StrandedForever(files: map<int, string>, index: set<int>, n: int, worlds: seq<World>, v: int)
    requires StatusIn(files, v).state == "BUSY" && StatusIn(files, v).pid.None?
    ensures v in files && v in RunCycles(files, index, n, worlds).0
    ensures RunCycles(files, index, n, worlds).0[v] == files[v]
    decreases |worlds|
  {
    if |worlds| > 0 {
      StrandedSlotPersists(files, index, n, worlds[0], v);
      var next := PollCycle(files, index, n, worlds[0]);
      assert StatusIn(next.0, v) == StatusIn(files, v);
      StrandedForever(next.0, next.1, n, worlds[1..], v);
    }
  }

  /**
   * Cleanup runs before discovery: the first ready issue without a worktree
   * gets the first slot that is FREE after this cycle's cleanup (a slot
   * whose worker just died included), and still holds it when the cycle ends.
   */
  lemma CleanupBeforeDiscovery(files: map<int, string>, index: set<int>, n: int, w: World, issue: int, u: int)
    requires n > 0 && w.items.Some?
    requires |ReadyIssues(w.items.value)| > 0 && ReadyIssues(w.items.value)[0] == issue
    requires w.pathto(0, issue).Exited? && w.pathto(0, issue).code != 0 && LaunchOf(w.spawn(0, issue)).Launched?
    requires FirstFree(Cleaned(files, n, w.alive), n) == Some(u)
    ensures StatusIn(PollCycle(files, index, n, w).0, u) == WorkerStatus("BUSY", Some(issue), LaunchOf(w.spawn(0, issue)).pid)
  {
    var files1 := Cleaned(files, n, w.alive);
    var jobs := IssueJobs(ReadyIssues(w.items.value), w.pathto, w.spawn);
    assert jobs == [jobs[0]] + jobs[1..];
    LaunchedKeepsSlot(files1, n, jobs[0], jobs[1..], u);
    var issues := AssignJobs(files1, n, jobs);
    if !(issues.raised || RepoOwnerName(w.remote).Err? || !AllNumbered(w.prs)) {
      AssignKeepsNonFree(issues.files, n, PrJobs(ConflictingPrs(w.prs), Metadata(w.prs), w.rebasePathto, w.rebase), u);
    }
  }

  /**
   * A spawn that raises, or succeeds without a pid line, leaves its slot
   * BUSY with no pid, and no later cycle ever rewrites it.
   */
  lemma StrandedByLaunch(files: map<int, string>, n: int, job: Job, rest: seq<Job>, u: int,
                         index: set<int>, worlds: seq<World>)
    requires n > 0 && job.check.Take? && FirstFree(files, n) == Some(u)
    requires job.launch == Launched(None) || job.launch.LaunchRaised?
    ensures var after := AssignJobs(files, n, [job] + rest).files;
      StatusIn(after, u) == Claim(job.issue)
      && u in after && u in RunCycles(after, index, n, worlds).0
      && RunCycles(after, index, n, worlds).0[u] == after[u]
  {
    if job.launch.LaunchRaised? {
      RaisedLeavesClaim(files, n, job, rest, u);
    } else {
      LaunchedKeepsSlot(files, n, job, rest, u);
    }
    StrandedForever(AssignJobs(files, n, [job] + rest).files, index, n, worlds, u);
  }
}
