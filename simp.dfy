/**
 * The simplifier workflow (`python/agentize/workflow/simp/simp.py`): its
 * argument validators, file selection, the file blocks of the prompt, and
 * the order in which `run_simp_workflow` validates, creates `.tmp`, writes
 * its files and runs the session.
 *
 * The repository is an oracle: the resolved explicit path, the output of
 * `git ls-files`, the seeded shuffle, file contents, the prompt renderer
 * and the session run.  `SimpError` and `ValueError` are named by class and
 * message.
 */
module Simp {
  import opened Wrappers
  import opened Text

  /** An argument as the CLI or a caller passes it: an int or a string. */
  datatype ArgValue = IntArg(i: int) | StrArg(s: string)

  /** Why the workflow raises; `Exception` names the class. */
  datatype Failure =
    | BadBackend | BadMaxFiles | BadSeed
    | ListFailed | NoTrackedFiles | OutsideRepo(path: string) | FileNotFound(path: string)
    | NoFilesSelected | WorkflowFailed(message: string)

  function Exception(f: Failure): string {
    if f.BadBackend? || f.BadMaxFiles? || f.BadSeed? then "ValueError" else "SimpError"
  }

  /** The exception's message. */
  function Message(f: Failure): string {
    match f
    case BadBackend => "Error: Backend must be in provider:model format (e.g., codex:gpt-5.2-codex)"
    case BadMaxFiles => "Error: --max-files must be a positive number"
    case BadSeed => "Error: --seed must be a number"
    case ListFailed => "Error: Failed to list repository files"
    case NoTrackedFiles => "Error: No tracked files found"
    case OutsideRepo(path) => "Error: File must be inside repo: " + path
    case FileNotFound(path) => "Error: File not found: " + path
    case NoFilesSelected => "Error: No files selected for simplification"
    case WorkflowFailed(message) => "Error: simp workflow failed (" + message + ")"
  }

  /** A step's value, or the failure it raises. */
  datatype Checked<T> = Pass(value: T) | Fail(failure: Failure)

  // ---------------------------------------------------------------------
  // Validators
  // ---------------------------------------------------------------------

  /** `_parse_backend`: `backend.split(":", 1)`, ValueError without a ':'. */
  function ParseBackend(backend: string): (r: Checked<(string, string)>)
  {
    IndexOfFirst(backend, ':');
    match IndexOf(backend, ':')
    case None => Fail(BadBackend)
    case Some(k) => Pass((backend[..k], backend[k + 1..]))
  }

  /**
   * A backend without ':' is refused; otherwise the provider is the text
   * before the first ':' and the model the rest, either possibly empty.
   */
  lemma ParseBackendSpec(backend: string)
    ensures ParseBackend(backend).Fail? <==> ':' !in backend
    ensures ParseBackend(backend).Pass? ==>
      var (provider, model) := ParseBackend(backend).value;
      provider + ":" + model == backend && ':' !in provider
  {
    IndexOfFirst(backend, ':');
    if ParseBackend(backend).Pass? {
      var k := IndexOf(backend, ':').value;
      SliceAround(backend, k);
    }
  }

  /** Joining a provider without ':' to any model and parsing gives both back. */
  lemma ParseBackendRoundTrip(provider: string, model: string)
    requires ':' !in provider
    ensures ParseBackend(provider + ":" + model) == Pass((provider, model))
  {
    var s := provider + ":" + model;
    assert s == provider + [':'] + model;
    IndexOfAfter(provider, model, ':');
    assert s[..|provider|] == provider;
    assert s[|provider| + 1..] == model;
  }

  /** `int(value)` for a value that `isinstance(value, int)` or `value.isdigit()` admits. */
  function ArgInt(value: ArgValue): (r: Option<int>)
    ensures value.StrArg? ==> (r.Some? <==> ParseNat(value.s).Some?)
  {
    match value
    case IntArg(i) => Some(i)
    case StrArg(s) => match ParseNat(s) case None => None case Some(n) => Some(n as int)
  }

  /** `_parse_max_files`: an int or digit string, which must be positive. */
  function ParseMaxFiles(value: ArgValue): (r: Checked<int>)
    ensures r.Pass? ==> r.value > 0
  {
    match ArgInt(value)
    case None => Fail(BadMaxFiles)
    case Some(n) => if n <= 0 then Fail(BadMaxFiles) else Pass(n)
  }

  /**
   * Accepted exactly: a positive int, or a non-empty all-digit string whose
   * value is positive; a sign is not a digit, so "-1" and "+1" are refused.
   */
  lemma ParseMaxFilesSpec(value: ArgValue)
    ensures value.IntArg? ==> (ParseMaxFiles(value).Pass? <==> value.i > 0)
    ensures value.IntArg? && value.i > 0 ==> ParseMaxFiles(value) == Pass(value.i)
    ensures value.StrArg? ==> (ParseMaxFiles(value).Pass? <==> |value.s| > 0 && AllDigits(value.s) && DigitsValue(value.s) > 0)
    ensures value.StrArg? && |value.s| > 0 && (value.s[0] == '-' || value.s[0] == '+') ==> ParseMaxFiles(value) == Fail(BadMaxFiles)
  {
  }

  /** The decimal text of a positive count parses back to it; "0" is refused. */
  lemma ParseMaxFilesRoundTrip(n: nat)
    ensures ParseMaxFiles(StrArg(NatToDecimal(n))) == if n > 0 then Pass(n) else Fail(BadMaxFiles)
  {
    NatDecimalRoundTrip(n);
  }

  /** `_parse_seed`: None stays None, ints pass (negatives too), digit strings convert. */
  function ParseSeed(value: Option<ArgValue>): (r: Checked<Option<int>>)
  {
    match value
    case None => Pass(None)
    case Some(v) => match ArgInt(v)
      case None => Fail(BadSeed)
      case Some(n) => Pass(Some(n))
  }

  /** A seed is refused exactly when it is a string that is not all digits (so "-1" is refused, -1 is not). */
  lemma ParseSeedSpec(value: Option<ArgValue>)
    ensures value.None? ==> ParseSeed(value) == Pass(None)
    ensures value.Some? && value.value.IntArg? ==> ParseSeed(value) == Pass(Some(value.value.i))
    ensures value.Some? && value.value.StrArg? ==>
      (ParseSeed(value).Fail? <==> !(|value.value.s| > 0 && AllDigits(value.value.s)))
    ensures ParseSeed(Some(StrArg("-1"))) == Fail(BadSeed)
  {
    assert !IsDigit("-1"[0]);
  }

  // ---------------------------------------------------------------------
  // File selection
  // ---------------------------------------------------------------------


  /** `_git_ls_files` on the command's stdout (None: non-zero exit). */
  function GitLsFiles(stdout: Option<string>): (r: Checked<seq<string>>)
    ensures r.Pass? ==> r.value != []
  {
    match stdout
    case None => Fail(ListFailed)
    case Some(out) =>
      var files := NonBlankStripped(SplitLines(out));
      if files == [] then Fail(NoTrackedFiles) else Pass(files)
  }

  /** A failed listing and an empty one raise; otherwise the stripped non-blank lines, each one non-empty. */
  lemma GitLsFilesSpec(stdout: Option<string>)
    ensures stdout.None? ==> GitLsFiles(stdout) == Fail(ListFailed)
    ensures stdout.Some? ==> (GitLsFiles(stdout) == Fail(NoTrackedFiles) <==> NonBlankStripped(SplitLines(stdout.value)) == [])
    ensures GitLsFiles(stdout).Pass? ==> forall i :: 0 <= i < |GitLsFiles(stdout).value| ==>
      GitLsFiles(stdout).value[i] != [] && PyStrip(GitLsFiles(stdout).value[i]) == GitLsFiles(stdout).value[i]
  {
    if stdout.Some? {
      NonBlankStrippedSpec(SplitLines(stdout.value));
    }
  }

  /** What `_normalize_file_path` finds for an explicit path: its repository-relative form, or why it raises. */
  datatype Resolved = Inside(rel: string) | Outside | Missing

  /**
   * `_select_files`: an explicit (non-empty) path gives the one-element list
   * of its repository-relative form; otherwise the tracked files, shuffled
   * by the seeded generator, cut to `maxFiles`.
   */
  function SelectFiles(filePath: Option<string>, resolved: Resolved, lsOut: Option<string>,
                       shuffle: (Option<int>, seq<string>) -> seq<string>, maxFiles: int, seed: Option<int>): Checked<seq<string>>
  {
    if filePath.Some? && filePath.value != "" then
      match resolved
      case Outside => Fail(OutsideRepo(filePath.value))
      case Missing => Fail(FileNotFound(filePath.value))
      case Inside(rel) => Pass([rel])
    else
      match GitLsFiles(lsOut)
      case Fail(f) => Fail(f)
      case Pass(files) => Pass(SliceTo(shuffle(seed, files), maxFiles))
  }

  /** The shuffle reorders the list it is given and nothing else. */
  ghost predicate IsShuffle(shuffle: (Option<int>, seq<string>) -> seq<string>) {
    forall seed, xs :: multiset(shuffle(seed, xs)) == multiset(xs)
  }

  /**
   * An explicit path selects exactly itself; otherwise the selection is a
   * prefix of a permutation of the tracked files, at most `maxFiles` long
   * and, for a positive bound, never empty.  Selection never raises
   * "No files selected".
   */
  lemma SelectFilesSpec(filePath: Option<string>, resolved: Resolved, lsOut: Option<string>,
                        shuffle: (Option<int>, seq<string>) -> seq<string>, maxFiles: int, seed: Option<int>)
    requires IsShuffle(shuffle)
    ensures var r := SelectFiles(filePath, resolved, lsOut, shuffle, maxFiles, seed);
      && (filePath.Some? && filePath.value != "" && resolved.Inside? ==> r == Pass([resolved.rel]))
      && ((filePath.None? || filePath.value == "") && GitLsFiles(lsOut).Pass? ==>
            && r.Pass?
            && r.value <= shuffle(seed, GitLsFiles(lsOut).value)
            && multiset(shuffle(seed, GitLsFiles(lsOut).value)) == multiset(GitLsFiles(lsOut).value)
            && (maxFiles > 0 ==> 0 < |r.value| <= maxFiles))
      && (r.Fail? ==> r.failure != NoFilesSelected)
  {
    if (filePath.None? || filePath.value == "") && GitLsFiles(lsOut).Pass? {
      var files := GitLsFiles(lsOut).value;
      assert |multiset(shuffle(seed, files))| == |multiset(files)|;
    }
  }

  // ---------------------------------------------------------------------
  // The prompt's file blocks
  // ---------------------------------------------------------------------

  /** `_format_file_block` given the file's text (None: missing or not a file). */
  function FormatFileBlock(path: string, content: Option<string>): (r: Checked<string>)
  {
    match content
    case None => Fail(FileNotFound(path))
    case Some(text) => Pass("### " + path + "\n```\n" + TrimNewlines(text) + "\n```")
  }

  /**
   * The block is the path header, a fence, the content without its trailing
   * newlines and a closing fence; the content can be read back between them.
   */
  lemma FormatFileBlockShape(path: string, text: string)
    ensures var b := FormatFileBlock(path, Some(text)).value; var body := TrimNewlines(text);
      && |b| == |path| + |body| + 13
      && b[..4] == "### " && b[4..4 + |path|] == path && b[4 + |path|..9 + |path|] == "\n```\n"
      && b[9 + |path|..|b| - 4] == body && b[|b| - 4..] == "\n```"
      && body == text[..|body|] && (forall k :: |body| <= k < |text| ==> text[k] == '\n')
  {
    TrimNewlinesRemovesNewlines(text);
  }

  /** The blocks of `_render_prompt`, in order; the first missing file raises. */
  function FileBlocks(paths: seq<string>, contents: string -> Option<string>): (r: Checked<seq<string>>)
    ensures r.Pass? ==> |r.value| == |paths|
    ensures r.Fail? ==> exists i :: 0 <= i < |paths| && r.failure == FileNotFound(paths[i]) && contents(paths[i]).None?
  {
    if paths == [] then Pass([])
    else match FormatFileBlock(paths[0], contents(paths[0]))
      case Fail(f) => Fail(f)
      case Pass(b) => match FileBlocks(paths[1..], contents)
        case Fail(f) => Fail(f)
        case Pass(rest) => Pass([b] + rest)
  }

  /** The blocks are produced exactly when every selected file exists, one per file in order. */
  lemma {:induction false} FileBlocksSpec(paths: seq<string>, contents: string -> Option<string>)
    ensures FileBlocks(paths, contents).Pass? <==> forall i :: 0 <= i < |paths| ==> contents(paths[i]).Some?
    ensures FileBlocks(paths, contents).Pass? ==> forall i :: 0 <= i < |paths| ==>
      FileBlocks(paths, contents).value[i] == FormatFileBlock(paths[i], contents(paths[i])).value
  {
    if paths != [] {
      FileBlocksSpec(paths[1..], contents);
      assert forall i :: 0 < i < |paths| ==> paths[i] == paths[1..][i - 1];
    }
  }

  /** `"\n".join(f"- {path}" for path in paths)`. */
  function SelectedList(paths: seq<string>): string {
    Join(seq(|paths|, i requires 0 <= i < |paths| => "- " + paths[i]), "\n")
  }

  // ---------------------------------------------------------------------
  // run_simp_workflow
  // ---------------------------------------------------------------------

  /**
   * What the repository and the tools answer: the explicit path resolved,
   * the `git ls-files` stdout, the seeded shuffle, file texts, the prompt
   * renderer (given the selected list and the file blocks), and the session
   * run (Some(message) for a PipelineError).
   */
  datatype SimpWorld = SimpWorld(
    resolved: Resolved,
    lsOut: Option<string>,
    shuffle: (Option<int>, seq<string>) -> seq<string>,
    contents: string -> Option<string>,
    render: (string, string) -> string,
    session: Option<string>)

  /** The arguments after validation. */
  datatype SimpArgs = SimpArgs(provider: string, model: string, maxFiles: int, seed: Option<int>)

  /** The three validators in their order; the first that raises decides. */
  function ValidateArgs(backend: string, maxFiles: ArgValue, seed: Option<ArgValue>): (r: Checked<SimpArgs>)
    ensures r.Pass? ==> r.value.maxFiles > 0
  {
    match ParseBackend(backend)
    case Fail(f) => Fail(f)
    case Pass(pm) => match ParseMaxFiles(maxFiles)
      case Fail(f) => Fail(f)
      case Pass(n) => match ParseSeed(seed)
        case Fail(f) => Fail(f)
        case Pass(sd) => Pass(SimpArgs(pm.0, pm.1, n, sd))
  }

  /** The text of `.tmp/simp-targets.txt`. */
  function TargetsText(selected: seq<string>): string {
    Join(selected, "\n") + "\n"
  }

  /** How a run ends: its failure (None: it returned), whether `.tmp` was made, and the files it wrote under `.tmp`. */
  datatype SimpEffect = SimpEffect(failure: Option<Failure>, madeTmp: bool, written: map<string, string>)

  /** From the written targets on: the file blocks, the rendered prompt, the session. */
  function AfterSelection(selected: seq<string>, world: SimpWorld): SimpEffect {
    var targets := map["simp-targets.txt" := TargetsText(selected)];
    match FileBlocks(selected, world.contents)
    case Fail(f) => SimpEffect(Some(f), true, targets)
    case Pass(blocks) =>
      var written := targets["simp-input.md" := world.render(SelectedList(selected), Join(blocks, "\n\n"))];
      match world.session
      case Some(msg) => SimpEffect(Some(WorkflowFailed(msg)), true, written)
      case None => SimpEffect(None, true, written)
  }

  /** From the created `.tmp` on: selection, the empty check, then the rest. */
  function AfterValidation(filePath: Option<string>, args: SimpArgs, world: SimpWorld): SimpEffect {
    match SelectFiles(filePath, world.resolved, world.lsOut, world.shuffle, args.maxFiles, args.seed)
    case Fail(f) => SimpEffect(Some(f), true, map[])
    case Pass(selected) =>
      if selected == [] then SimpEffect(Some(NoFilesSelected), true, map[]) else AfterSelection(selected, world)
  }

  /** `run_simp_workflow`, step by step, as a value. */
  function SimpWorkflow(filePath: Option<string>, backend: string, maxFiles: ArgValue, seed: Option<ArgValue>, world: SimpWorld): SimpEffect
  {
    match ValidateArgs(backend, maxFiles, seed)
    case Fail(f) => SimpEffect(Some(f), false, map[])
    case Pass(args) => AfterValidation(filePath, args, world)
  }

  /** Every validator runs before any filesystem work: a bad argument leaves `.tmp` alone. */
  lemma ValidationBeforeFilesystem(filePath: Option<string>, backend: string, maxFiles: ArgValue, seed: Option<ArgValue>, world: SimpWorld)
    ensures ValidateArgs(backend, maxFiles, seed).Fail? ==>
      SimpWorkflow(filePath, backend, maxFiles, seed, world) == SimpEffect(Some(ValidateArgs(backend, maxFiles, seed).failure), false, map[])
    ensures ':' !in backend ==> SimpWorkflow(filePath, backend, maxFiles, seed, world) == SimpEffect(Some(BadBackend), false, map[])
  {
    ParseBackendSpec(backend);
  }

  /**
   * "No files selected" is never raised: an explicit path selects one file,
   * and a successful listing is non-empty and cut to a positive bound.
   */
  lemma NoFilesSelectedUnreachable(filePath: Option<string>, backend: string, maxFiles: ArgValue, seed: Option<ArgValue>, world: SimpWorld)
    requires IsShuffle(world.shuffle)
    ensures SimpWorkflow(filePath, backend, maxFiles, seed, world).failure != Some(NoFilesSelected)
  {
    var v := ValidateArgs(backend, maxFiles, seed);
    if v.Pass? {
      SelectFilesSpec(filePath, world.resolved, world.lsOut, world.shuffle, v.value.maxFiles, v.value.seed);
    }
  }

  /** A run that returns has made `.tmp` and written exactly the targets list and the rendered prompt. */
  lemma CompletedRunWrites(filePath: Option<string>, backend: string, maxFiles: ArgValue, seed: Option<ArgValue>, world: SimpWorld)
    ensures var e := SimpWorkflow(filePath, backend, maxFiles, seed, world);
      e.failure.None? ==> e.madeTmp && e.written.Keys == {"simp-targets.txt", "simp-input.md"}
  {
  }

  /** The `.tmp` directory the workflow writes into. */
  class TmpDir {
    var present: bool
    /** Text of the files under `.tmp`, by name. */
    var files: map<string, string>

    constructor (present0: bool, files0: map<string, string>)
      ensures present == present0 && files == files0
    {
      present := present0;
      files := files0;
    }

    /** `run_simp_workflow`: validate, make `.tmp`, select, write the targets, render the prompt, run the session. */
    method RunSimpWorkflow(filePath: Option<string>, backend: string, maxFiles: ArgValue, seed: Option<ArgValue>, world: SimpWorld)
      returns (failure: Option<Failure>)
      modifies this
      ensures var e := SimpWorkflow(filePath, backend, maxFiles, seed, world);
        && failure == e.failure
        && present == (old(present) || e.madeTmp)
        && files == old(files) + e.written
    {
      var args := ValidateArgs(backend, maxFiles, seed);
      if args.Fail? {
        assert files == old(files) + map[];
        return Some(args.failure);
      }
      present := true;
      var sel := SelectFiles(filePath, world.resolved, world.lsOut, world.shuffle, args.value.maxFiles, args.value.seed);
      if sel.Fail? {
        assert files == old(files) + map[];
        return Some(sel.failure);
      }
      var selected := sel.value;
      if selected == [] {
        assert files == old(files) + map[];
        return Some(NoFilesSelected);
      }
      failure := RunSelected(selected, world);
    }

    /** The steps after selection, as `AfterSelection` describes them. */
    method RunSelected(selected: seq<string>, world: SimpWorld) returns (failure: Option<Failure>)
      modifies this
      ensures var e := AfterSelection(selected, world);
        && failure == e.failure && present == old(present) && files == old(files) + e.written
    {
      files := files["simp-targets.txt" := TargetsText(selected)];
      var blocks := FileBlocks(selected, world.contents);
      if blocks.Fail? {
        return Some(blocks.failure);
      }
      files := files["simp-input.md" := world.render(SelectedList(selected), Join(blocks.value, "\n\n"))];
      if world.session.Some? {
        return Some(WorkflowFailed(world.session.value));
      }
      return None;
    }
  }
}
