/**
 * The agent-runner helpers of the workflow package: where the `acw` shell
 * script lives, the argument list a stage run passes to it, the provider
 * list it reports (cached for the whole process), and the `ACW` runner,
 * which checks its provider when it is made and logs a line before and
 * after every run.
 *
 * The shell itself is an oracle: a function from the argument list and the
 * timeout to the completed process, or to the timeout `subprocess.run`
 * raises when the process outlives it.
 */
module WorkflowUtils {
  import opened Wrappers
  import opened Text

  /** A finished `subprocess.run` with captured text output. */
  datatype Completed = Completed(returnCode: int, stdout: string, stderr: string)

  /** What the shell oracle answers: the finished process, or `subprocess.TimeoutExpired`. */
  datatype ShellOutcome = Finished(process: Completed) | TimedOut

  /**
   * The exceptions raised here: two RuntimeErrors from the provider listing,
   * the ValueError of an unknown provider, and the `TimeoutExpired` of a
   * shell run that outlived its timeout, which passes through uncaught.
   */
  datatype AcwError =
    | ProvidersFailed(reason: string)
    | NoProviders
    | UnknownProvider(provider: string, expected: seq<string>)
    | ShellTimedOut(seconds: int)

  /** The exception's text; for a timeout, the tail of `TimeoutExpired`'s text, after the quoted command. */
  function Message(e: AcwError): string {
    match e
    case ProvidersFailed(reason) => "acw --complete providers failed: " + reason
    case NoProviders => "acw --complete providers returned no providers"
    case UnknownProvider(p, expected) => "Unknown acw provider '" + p + "'. Expected one of: " + Join(expected, ", ")
    case ShellTimedOut(seconds) => " timed out after " + IntToDecimal(seconds) + " seconds"
  }

  /** Either the value returned or the exception raised. */
  datatype Attempt<T> = Done(value: T) | Failed(error: AcwError)

  // ---------------------------------------------------------------------
  // _resolve_acw_script
  // ---------------------------------------------------------------------

  /** POSIX `os.path.join(a, b)`: an absolute `b` replaces `a`; a separator is added unless `a` is empty or ends in one. */
  function PathJoin(a: string, b: string): string {
    if |b| > 0 && b[0] == '/' then b
    else if a == [] || a[|a| - 1] == '/' then a + b
    else a + "/" + b
  }

  /** `_resolve_acw_script`: the `PLANNER_ACW_SCRIPT` override when set and non-empty, else the script under the home. */
  function ResolveAcwScript(override: Option<string>, home: string): string {
    if override.Some? && override.value != "" then override.value
    else PathJoin(PathJoin(PathJoin(home, "src"), "cli"), "acw.sh")
  }

  /** The directory part `os.path.join` keeps of the home: the home itself, followed by a separator unless it is empty or has one. */
  function HomeDir(home: string): string {
    if home == [] || home[|home| - 1] == '/' then home else home + "/"
  }

  /** A set, non-empty override wins; otherwise the path is `<home>/src/cli/acw.sh`. */
  lemma ResolveAcwScriptSpec(override: Option<string>, home: string)
    ensures override.Some? && override.value != "" ==> ResolveAcwScript(override, home) == override.value
    ensures override.None? || override.value == "" ==>
      ResolveAcwScript(override, home) == HomeDir(home) + "src" + "/" + "cli" + "/" + "acw.sh"
  {
    var d := HomeDir(home);
    assert PathJoin(home, "src") == d + "src";
    var s := d + "src";
    assert s[|s| - 1] == 'c';
    assert PathJoin(s, "cli") == s + "/" + "cli";
    var c := s + "/" + "cli";
    assert c[|c| - 1] == 'i';
    assert PathJoin(c, "acw.sh") == c + "/" + "acw.sh";
  }

  // ---------------------------------------------------------------------
  // run_acw
  // ---------------------------------------------------------------------

  /** Python truthiness of an optional string: set and non-empty. */
  predicate Given(s: Option<string>) { s.Some? && s.value != "" }

  /** The claude-only flags: `--tools T` before `--permission-mode P`, each only when given. */
  function ClaudeFlags(provider: string, tools: Option<string>, permissionMode: Option<string>): seq<string> {
    if provider != "claude" then []
    else
      (if Given(tools) then ["--tools", tools.value] else [])
      + (if Given(permissionMode) then ["--permission-mode", permissionMode.value] else [])
  }

  /** The argument list of `run_acw`: the four positional arguments, the claude-only flags, then the extra flags. */
  function CmdParts(provider: string, model: string, inputFile: string, outputFile: string,
                    tools: Option<string>, permissionMode: Option<string>, extraFlags: Option<seq<string>>): seq<string>
  {
    [provider, model, inputFile, outputFile] + ClaudeFlags(provider, tools, permissionMode) + extraFlags.GetOr([])
  }

  /**
   * The layout of the argument list: positional arguments first, extra flags
   * last and in order; a provider other than claude gets nothing between
   * them, claude gets `--tools T` and then `--permission-mode P`.
   */
  lemma CmdPartsLayout(provider: string, model: string, inputFile: string, outputFile: string,
                       tools: Option<string>, permissionMode: Option<string>, extraFlags: Option<seq<string>>)
    ensures var r := CmdParts(provider, model, inputFile, outputFile, tools, permissionMode, extraFlags);
      var extra := extraFlags.GetOr([]);
      var t := if provider == "claude" && Given(tools) then 2 else 0;
      var p := if provider == "claude" && Given(permissionMode) then 2 else 0;
      && |r| == 4 + t + p + |extra|
      && r[..4] == [provider, model, inputFile, outputFile]
      && r[4 + t + p..] == extra
      && (t == 2 ==> r[4] == "--tools" && r[5] == tools.value)
      && (p == 2 ==> r[4 + t] == "--permission-mode" && r[5 + t] == permissionMode.value)
  {
  }

  /** Only claude receives `--tools` or `--permission-mode` from the options; any other provider gets exactly the positional and extra arguments. */
  lemma OtherProvidersGetNoClaudeFlags(provider: string, model: string, inputFile: string, outputFile: string,
                                       tools: Option<string>, permissionMode: Option<string>, extraFlags: Option<seq<string>>)
    requires provider != "claude"
    ensures CmdParts(provider, model, inputFile, outputFile, tools, permissionMode, extraFlags)
      == [provider, model, inputFile, outputFile] + extraFlags.GetOr([])
  {
  }

  /** `run_acw`'s list built as the source builds it, by successive extends. */
  method BuildCmdParts(provider: string, model: string, inputFile: string, outputFile: string,
                       tools: Option<string>, permissionMode: Option<string>, extraFlags: Option<seq<string>>)
    returns (parts: seq<string>)
    ensures parts == CmdParts(provider, model, inputFile, outputFile, tools, permissionMode, extraFlags)
  {
    parts := [provider, model, inputFile, outputFile];
    if provider == "claude" {
      if Given(tools) {
        parts := parts + ["--tools", tools.value];
      }
      if Given(permissionMode) {
        parts := parts + ["--permission-mode", permissionMode.value];
      }
    }
    assert parts == [provider, model, inputFile, outputFile] + ClaudeFlags(provider, tools, permissionMode);
    if extraFlags.Some? && extraFlags.value != [] {
      parts := parts + extraFlags.value;
    }
  }

  /** `run_acw`: the shell run on the built list with the given timeout; a timeout is passed on to the caller. */
  method RunAcw(provider: string, model: string, inputFile: string, outputFile: string,
                tools: Option<string>, permissionMode: Option<string>, extraFlags: Option<seq<string>>,
                timeout: int, shell: (seq<string>, int) -> ShellOutcome)
    returns (process: ShellOutcome)
    ensures process == shell(CmdParts(provider, model, inputFile, outputFile, tools, permissionMode, extraFlags), timeout)
  {
    var parts := BuildCmdParts(provider, model, inputFile, outputFile, tools, permissionMode, extraFlags);
    process := shell(parts, timeout);
  }

  // ---------------------------------------------------------------------
  // list_acw_providers
  // ---------------------------------------------------------------------

  /** The provider listing is run as `acw --complete providers`, with a 30 second timeout. */
  const ProvidersArgs: seq<string> := ["--complete", "providers"]
  const ProvidersTimeout: int := 30

  /** What an uncached `list_acw_providers` makes of the listing's completed process. */
  function ProvidersFrom(p: Completed): Attempt<seq<string>> {
    if p.returnCode != 0 then
      var detail := if PyStrip(p.stderr) != "" then PyStrip(p.stderr) else PyStrip(p.stdout);
      Failed(ProvidersFailed(if detail != "" then detail else "unknown error"))
    else
      var providers := NonBlankStripped(SplitLines(p.stdout));
      if providers == [] then Failed(NoProviders) else Done(providers)
  }

  /** What an uncached `list_acw_providers` makes of the listing's outcome: a timeout escapes as it is. */
  function ListingResult(o: ShellOutcome): Attempt<seq<string>> {
    match o
    case TimedOut => Failed(ShellTimedOut(ProvidersTimeout))
    case Finished(p) => ProvidersFrom(p)
  }

  /**
   * A non-zero exit raises with the stripped stderr, else the stripped
   * stdout, else "unknown error"; an exit of zero gives the stripped
   * non-blank lines of stdout, and raises when there are none.
   */
  lemma ProvidersFromSpec(p: Completed)
    ensures p.returnCode != 0 ==>
      && ProvidersFrom(p).Failed? && ProvidersFrom(p).error.ProvidersFailed?
      && ProvidersFrom(p).error.reason != ""
      && (PyStrip(p.stderr) != "" ==> ProvidersFrom(p).error.reason == PyStrip(p.stderr))
      && (PyStrip(p.stderr) == "" && PyStrip(p.stdout) != "" ==> ProvidersFrom(p).error.reason == PyStrip(p.stdout))
    ensures p.returnCode == 0 ==>
      (ProvidersFrom(p) == Failed(NoProviders) <==> NonBlankStripped(SplitLines(p.stdout)) == [])
    ensures ProvidersFrom(p).Done? ==>
      && p.returnCode == 0 && ProvidersFrom(p).value != []
      && forall i :: 0 <= i < |ProvidersFrom(p).value| ==>
           ProvidersFrom(p).value[i] != "" && PyStrip(ProvidersFrom(p).value[i]) == ProvidersFrom(p).value[i]
  {
    if p.returnCode == 0 {
      NonBlankStrippedSpec(SplitLines(p.stdout));
    }
  }

  /** The module-global `_ACW_PROVIDERS_CACHE` and the process's runs of the listing. */
  class ProviderCache {
    var cached: Option<seq<string>>
    /** How many times the listing has been run. */
    var runs: nat

    constructor ()
      ensures cached == None && runs == 0
    {
      cached := None;
      runs := 0;
    }

    /**
     * `list_acw_providers`: a cached list is returned without running the
     * listing; otherwise `acw --complete providers` runs with its 30 second
     * timeout, and only a successful result is cached.  A failure, the
     * timeout included, leaves the cache empty.
     */
    method ListAcwProviders(shell: (seq<string>, int) -> ShellOutcome) returns (r: Attempt<seq<string>>)
      modifies this
      ensures old(cached).Some? ==> r == Done(old(cached).value) && cached == old(cached) && runs == old(runs)
      ensures old(cached).None? ==>
        && r == ListingResult(shell(ProvidersArgs, ProvidersTimeout)) && runs == old(runs) + 1
        && cached == (if r.Done? then Some(r.value) else None)
      ensures old(cached).None? && shell(ProvidersArgs, ProvidersTimeout).TimedOut? ==>
        r == Failed(ShellTimedOut(ProvidersTimeout)) && cached == None
    {
      if cached.Some? {
        return Done(cached.value);
      }
      runs := runs + 1;
      var listing := shell(ProvidersArgs, ProvidersTimeout);
      if listing.TimedOut? {
        return Failed(ShellTimedOut(ProvidersTimeout));
      }
      r := ProvidersFrom(listing.process);
      if r.Done? {
        cached := Some(r.value);
      }
    }
  }

  // ---------------------------------------------------------------------
  // ACW
  // ---------------------------------------------------------------------

  /** The check in `ACW.__init__`: the listing's own failure, or an unknown provider. */
  function CheckProvider(listed: Attempt<seq<string>>, provider: string): Option<AcwError> {
    match listed
    case Failed(e) => Some(e)
    case Done(providers) => if provider in providers then None else Some(UnknownProvider(provider, providers))
  }

  /** A runner is made exactly when the listing succeeds and names the provider; an unknown provider's error lists every known one. */
  lemma CheckProviderSpec(listed: Attempt<seq<string>>, provider: string)
    ensures CheckProvider(listed, provider).None? <==> listed.Done? && provider in listed.value
    ensures listed.Done? && provider !in listed.value ==>
      Message(CheckProvider(listed, provider).value)
        == "Unknown acw provider '" + provider + "'. Expected one of: " + Join(listed.value, ", ")
    ensures listed.Failed? ==> CheckProvider(listed, provider) == Some(listed.error)
  {
  }

  /** `int(x)` on a float: truncation toward zero. */
  function Truncate(x: real): int {
    if x >= 0.0 then x.Floor else -((-x).Floor)
  }

  /** Truncation drops the fraction toward zero. */
  lemma TruncateSpec(x: real)
    ensures x >= 0.0 ==> 0 <= Truncate(x) && Truncate(x) as real <= x < Truncate(x) as real + 1.0
    ensures x < 0.0 ==> Truncate(x) <= 0 && Truncate(x) as real - 1.0 < x <= Truncate(x) as real
  {
  }

  /** What a runner does, in order: a message it emits, or a run of the shell. */
  datatype Event = Emitted(message: string) | Invoked(args: seq<string>, timeout: int)

  /** `ACW`: a named runner for one provider and model. */
  class Acw {
    const name: string
    const provider: string
    const model: string
    const timeout: int
    const tools: Option<string>
    const permissionMode: Option<string>
    const extraFlags: Option<seq<string>>
    /** Everything this runner has emitted or run, oldest first. */
    var trace: seq<Event>

    constructor (name: string, provider: string, model: string, timeout: int,
                 tools: Option<string>, permissionMode: Option<string>, extraFlags: Option<seq<string>>)
      ensures this.name == name && this.provider == provider && this.model == model && this.timeout == timeout
      ensures this.tools == tools && this.permissionMode == permissionMode && this.extraFlags == extraFlags
      ensures trace == []
    {
      this.name := name;
      this.provider := provider;
      this.model := model;
      this.timeout := timeout;
      this.tools := tools;
      this.permissionMode := permissionMode;
      this.extraFlags := extraFlags;
      trace := [];
    }

    /** `f"{name} ({provider}:{model})"`, the runner's label in both messages. */
    function Label(): string {
      name + " (" + provider + ":" + model + ")"
    }

    function RunningMessage(): string {
      "Agent " + Label() + " is running..."
    }

    function RunsMessage(elapsed: int): string {
      "agent " + Label() + (" runs " + IntToDecimal(elapsed) + "s")
    }

    /** The argument list this runner passes to `run_acw`. */
    function Args(inputFile: string, outputFile: string): seq<string> {
      CmdParts(provider, model, inputFile, outputFile, tools, permissionMode, extraFlags)
    }

    /**
     * `ACW.run`: the "is running..." message, the shell run, then the
     * "runs Ns" message with the whole seconds between the two monotonic
     * clock readings; the shell's result is returned.  A run that times out
     * raises from the shell call, so the second message is never emitted.
     */
    method Run(inputFile: string, outputFile: string, start: real, finish: real,
               shell: (seq<string>, int) -> ShellOutcome) returns (r: Attempt<Completed>)
      modifies this
      ensures shell(Args(inputFile, outputFile), timeout).Finished? ==>
        && r == Done(shell(Args(inputFile, outputFile), timeout).process)
        && trace == old(trace) + [Emitted(RunningMessage()), Invoked(Args(inputFile, outputFile), timeout),
                                  Emitted(RunsMessage(Truncate(finish - start)))]
      ensures shell(Args(inputFile, outputFile), timeout).TimedOut? ==>
        && r == Failed(ShellTimedOut(timeout))
        && trace == old(trace) + [Emitted(RunningMessage()), Invoked(Args(inputFile, outputFile), timeout)]
    {
      trace := trace + [Emitted(RunningMessage())];
      trace := trace + [Invoked(Args(inputFile, outputFile), timeout)];
      var process := RunAcw(provider, model, inputFile, outputFile, tools, permissionMode, extraFlags, timeout, shell);
      if process.TimedOut? {
        return Failed(ShellTimedOut(timeout));
      }
      var elapsed := Truncate(finish - start);
      trace := trace + [Emitted(RunsMessage(elapsed))];
      r := Done(process.process);
    }
  }

  /**
   * `ACW(...)`: the provider list is fetched through the cache (running
   * the listing only when nothing is cached) and the runner exists only
   * when its provider is listed.
   */
  method NewAcw(cache: ProviderCache, shell: (seq<string>, int) -> ShellOutcome, name: string, provider: string, model: string,
                timeout: int, tools: Option<string>, permissionMode: Option<string>, extraFlags: Option<seq<string>>)
    returns (acw: Acw?, error: Option<AcwError>)
    modifies cache
    ensures var listed := if old(cache.cached).Some? then Done(old(cache.cached).value)
                          else ListingResult(shell(ProvidersArgs, ProvidersTimeout));
      error == CheckProvider(listed, provider)
    ensures old(cache.cached).Some? ==> cache.cached == old(cache.cached)
    ensures old(cache.cached).None? ==>
      cache.cached == (if ListingResult(shell(ProvidersArgs, ProvidersTimeout)).Done?
                       then Some(ListingResult(shell(ProvidersArgs, ProvidersTimeout)).value) else None)
    ensures old(cache.cached).None? && shell(ProvidersArgs, ProvidersTimeout).TimedOut? ==>
      error == Some(ShellTimedOut(ProvidersTimeout)) && acw == null && cache.cached == None
    ensures (acw != null) == error.None?
    ensures acw != null ==>
      && fresh(acw) && acw.name == name && acw.provider == provider && acw.model == model
      && acw.timeout == timeout && acw.tools == tools && acw.permissionMode == permissionMode
      && acw.extraFlags == extraFlags && acw.trace == []
  {
    var listed := cache.ListAcwProviders(shell);
    error := CheckProvider(listed, provider);
    if error.Some? {
      return null, error;
    }
    acw := new Acw(name, provider, model, timeout, tools, permissionMode, extraFlags);
  }

  /** The two messages of a run differ and both carry the runner's label right after their first word. */
  lemma RunMessagesShape(a: Acw, elapsed: int)
    ensures a.RunningMessage()[..6] == "Agent " && a.RunsMessage(elapsed)[..6] == "agent "
    ensures a.RunningMessage()[6..6 + |a.Label()|] == a.Label() && a.RunsMessage(elapsed)[6..6 + |a.Label()|] == a.Label()
    ensures a.RunningMessage() != a.RunsMessage(elapsed)
  {
    HeadAndLabel("Agent ", a.Label(), " is running...");
    HeadAndLabel("agent ", a.Label(), " runs " + IntToDecimal(elapsed) + "s");
    assert a.RunningMessage()[0] == 'A' && a.RunsMessage(elapsed)[0] == 'a';
  }

  /** A message made of a head, a label `tag` and a tail shows the head first and the label right after it. */
  lemma HeadAndLabel(w: string, tag: string, t: string)
    ensures (w + tag + t)[..|w|] == w && (w + tag + t)[|w|..|w| + |tag|] == tag
    ensures forall i :: 0 <= i < |w| ==> (w + tag + t)[i] == w[i]
  {
  }
}
