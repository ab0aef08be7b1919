# agentize, modelled in Dafny

This project models the core of agentize. agentize is a toolkit that runs coding agents on
GitHub issues. It has two parts: a Python package and a VS Code extension.

The model covers two cores with real state and invariants:

- **The permission gate** (`python/agentize/permission/`). Every tool call an agent requests is
  decided as allow, deny or ask. The decision first normalises a shell command (`Strips`) and
  reduces the tool payload to one target string (`ToolTarget`). It then runs the cascade
  (`PermissionGate`): the rule matcher, then a judge model, then a human who answers over
  Telegram. The Telegram wait is a `while` loop over batches of updates. Each update read sets
  the offset of the next request to that update's id plus one.
- **The worker-slot scheduler** (`python/agentize/server/`). `WorkerSlots` is the slot directory.
  It is a class that holds a map from slot id to record text, and each record is written as
  `state=`/`issue=`/`pid=` lines. It covers reading and writing records, the free-slot scan, the
  liveness rule, reaping dead workers and initialising the slot files. `PollServer` models the
  server's own parsers, its discovery filters and one poll cycle. A cycle reaps, discovers,
  claims a slot, spawns, and then confirms or releases the slot.

Around them are smaller pieces:

- `RuntimeConfig`: the indentation-based reader of `.agentize.local.yaml`, its precedence rule
  and its workflow model map.
- `ImplKernels`: the impl workflow's review-score parser and review verdict, its prompt
  sections and its "Closes #N" line.
- `EvalHarness`: the evaluation harness's task selection, run status and summary metrics.
- `Simp`: the simplifier's argument validators and file selection.
- `WorkflowUtils`: the `acw` runner: its argument list, the cached provider list, and the `ACW`
  class.
- Three VS Code pieces:
  - `SessionState`: the `SessionStore` class, which holds the extension's plan sessions in memory;
  - `ViewHelpers` and `PlannerConfig`: the unified view's helpers, including reading and
    rewriting the planner backend in a YAML file;
  - `SettingsWebview`: the settings form.

`Wrappers` (Option and Result) and `Text` are shared. `Text` holds character classes and string
helpers for both Python and ECMAScript semantics. The two languages disagree on what `\s` and
`strip`/`trim` remove, and both sets are written out.

Anything external is an oracle passed in as a parameter or a value:

- the rule matcher, the judge subprocess and the Telegram API;
- `gh`, `git`, `wt` and the pid probe;
- file reads, clocks and random ids.

Module-global state becomes a parameter or a class field. This covers determine.py's
`_hook_input` and utils.py's provider cache.

Where the code's own comments, or a natural reading of it, promise more than it does, the model
follows the code:

- **Normalisation is not idempotent.** `normalize_bash_command` strips assignments before `set`
  prefixes (`python/agentize/permission/strips.py:28-32`). So `set -e && A=1 ls` needs two
  passes (`Strips.NormalizeNotIdempotent`).
- **The cascade can raise.** `_check_permission`'s docstring promises a decision and a source,
  'error' included (`python/agentize/permission/determine.py:285-294`). Its last human-channel
  call is unguarded (`determine.py:330-335`), so an exception there escapes
  (`PermissionGate.LastResortEscapes`).
- **A failed spawn can leak its slot.** A spawn that raises, or succeeds without a PID line,
  leaves the slot BUSY with no pid (`python/agentize/server/__main__.py:962-976`). The liveness
  rule treats such a slot as live for ever (`PollServer.StrandedByLaunch`).
- **Missing state is not rewritten.** The comment at `__main__.py:720` says a corrupted file is
  reset to FREE. But `read_worker_status` fills in a missing state as FREE (`__main__.py:745`),
  so the check at `__main__.py:727` never fires. The reset happens only when the read raises
  (`__main__.py:729-730`).
- **Rule decisions are not logged under 'rules'.** The docstring at `determine.py:290` names the
  source 'rules', and the debug-log router compares with it exactly (`determine.py:351`). The
  matcher tags its sources `rules:<kind>`, so rule decisions are never logged there. What is
  modelled is the routing as written.
- **Zero is not the only bypass.** The docstring at `__main__.py:885` reads "0 = unlimited". The
  loop tests `num_workers > 0` (`__main__.py:930`, `955`, `1005`), so any count of zero or less
  bypasses the slots.

Other behaviour stated as written:

- **"enable" does not turn on Telegram.** `HANDSOFF_AUTO_PERMISSION=enable` turns on the judge,
  but `AGENTIZE_USE_TG=enable` does not turn on Telegram.
- **`set -euo pipefail &&` is not stripped.** Only a single flag letter is accepted.
- **"Closes #420" counts as closing #42.** The pattern has no word boundary.
- **`simp_kernel` always reports failure.** `run_simp_workflow` accepts neither `issue_number`
  nor `focus`, so the call raises `TypeError`, which the kernel catches.
- **Saving and reloading the planner backend does not always round-trip.** It round-trips only
  for a spec without `#` and without outer quotes. `a:#b` reads back as `a:`
  (`PlannerConfig.HashBackendReadsBack`).
- **The webview splits more specs than it can save.** It splits backend specs the extension
  would refuse (`SettingsWebview.SplitBackendLooser`).

## Model

| member | source | states |
|---|---|---|
| Strips.EnvGroupLen | python/agentize/permission/strips.py:13 | the length found is within the command and, when positive, covers exactly one `NAME=value` assignment followed by all of its blanks, so it ends at the end of the command or before a non-blank |
| Strips.NoEnvGroupPrefix | python/agentize/permission/strips.py:13 | when no group is found at the start, no prefix of the command is an assignment group |
| Strips.EnvRunLen | python/agentize/permission/strips.py:13 | the `(...)+` run stops where no further assignment group starts |
| Strips.EnvRunIsRun | python/agentize/permission/strips.py:13 | what the run skips is a sequence of assignment groups |
| Strips.EnvRunEndsOffBlank | python/agentize/permission/strips.py:13 | a non-empty run of assignment groups ends at the end of the command or before a non-blank, since each `\s+` is greedy |
| Strips.StripEnvVars | python/agentize/permission/strips.py:10-14 | the result is a suffix of the command |
| Strips.StripEnvVarsRemovesLongestRun | python/agentize/permission/strips.py:10-14 | the removed prefix is a run of assignment groups, no prefix of what is left is one more, and when something was removed what is left does not start with a blank: the regex removes exactly the longest leading run with all its trailing blanks |
| Strips.StripEnvVarsIdempotent | python/agentize/permission/strips.py:10-14 | stripping twice gives what stripping once gives |
| Strips.ShellGroupLen | python/agentize/permission/strips.py:24 | the greedy match of one `set\s+-[exo]\s+[a-z]*\s*&&\s*` group, case-insensitive, has a length within the command and, when positive, ends at the end of the command or before a non-blank |
| Strips.ShellGroupLenIsGroup | python/agentize/permission/strips.py:24 | a positive length covers exactly one `set` clause: `set`, blanks, `-` and one flag letter, blanks, letters, blanks, `&&`, blanks |
| Strips.NoShellGroupPrefix | python/agentize/permission/strips.py:24 | when no group is found at the start, no prefix of the command is a `set` clause |
| Strips.ShellRunLen | python/agentize/permission/strips.py:24 | the run of groups stops where no further `set` group starts |
| Strips.ShellRunIsRun | python/agentize/permission/strips.py:24 | what the run skips is a sequence of `set` clauses |
| Strips.ShellRunEndsOffBlank | python/agentize/permission/strips.py:24 | a non-empty run of `set` clauses ends at the end of the command or before a non-blank, since the final `\s*` is greedy |
| Strips.StripShellPrefixes | python/agentize/permission/strips.py:17-25 | the result is a suffix of the command |
| Strips.StripShellPrefixesRemovesLongestRun | python/agentize/permission/strips.py:17-25 | the removed prefix is a run of `set` clauses, no prefix of what is left is one more, and when something was removed what is left does not start with a blank: the regex removes exactly the longest leading run with the blanks after its last `&&` |
| Strips.StripShellPrefixesIdempotent | python/agentize/permission/strips.py:17-25 | stripping the shell prefixes twice gives what stripping once gives |
| Strips.NormalizeBashCommand | python/agentize/permission/strips.py:28-32 | the normalised command is a suffix of the original |
| Strips.NormalizeRemovesRuns | python/agentize/permission/strips.py:28-32 | the normalised command is what follows the longest leading run of assignments and then the longest leading run of `set` clauses after it; each non-empty run ends at the end of the command or before a non-blank |
| Strips.SingleSetGroup | python/agentize/permission/strips.py:24 | `set -e && ` written with single blanks and followed by a non-blank is one ten-character group |
| Strips.LongFlagNoGroup | python/agentize/permission/strips.py:24 | a `set -X` whose flag letter is followed by another non-blank is not a group |
| Strips.NoLeadingAssignment | python/agentize/permission/strips.py:13 | a command whose first word is not followed by `=` is left unchanged by the assignment stripper |
| Strips.SetPrefixGroup | python/agentize/permission/strips.py:24 | `set -e && A=1 ls` opens with a ten-character group |
| Strips.SetPrefixStripped | python/agentize/permission/strips.py:10-25 | on `set -e && A=1 ls` the assignment stripper changes nothing and the prefix stripper leaves `A=1 ls` |
| Strips.AssignmentKeptByShellStrip | python/agentize/permission/strips.py:10-25 | on `A=1 ls` the prefix stripper changes nothing and the assignment stripper leaves `ls` |
| Strips.PlainCommandKept | python/agentize/permission/strips.py:10-25 | `ls` is left unchanged by both strippers |
| Strips.NormalizeNotIdempotent | python/agentize/permission/strips.py:28-32 | normalising `set -e && A=1 ls` gives `A=1 ls`, and normalising that gives `ls`: the composition is not idempotent |
| Strips.CombinedFlagsNotStripped | python/agentize/permission/strips.py:24 | `set -euo pipefail && ls` is left as it is, because the flag class is one letter |
| Strips.NormalizeKeeps | python/agentize/permission/strips.py:28-32 | a command with no leading assignment and no leading `set` group is unchanged |
| Strips.BareAssignmentKept | python/agentize/permission/strips.py:13 | `A=1` with nothing after it is kept, since the pattern needs trailing blanks |
| ToolTarget.Get | python/agentize/permission/parser.py:34 | `dict.get` gives the stored value for a present key and the default otherwise |
| ToolTarget.Headers | python/agentize/permission/parser.py:66 | an entry that is not an object raises AttributeError wherever it stands, since `.get` runs on every entry before the join; otherwise only a non-string header raises, with TypeError; on success there is one header per question, each the object's `header` entry (default '') |
| ToolTarget.PathAndCommandTargets | python/agentize/permission/parser.py:33-36 | the file tools give `file_path` and Bash gives `command`, each defaulting to '' |
| ToolTarget.SearchTargets | python/agentize/permission/parser.py:37-44 | Grep and Glob give `pattern=P`, with ` path=X` appended only for a non-empty path |
| ToolTarget.TaskTarget | python/agentize/permission/parser.py:45-48 | Task gives `subagent=S desc=D` |
| ToolTarget.SkillTarget | python/agentize/permission/parser.py:49-52 | Skill gives the skill name, followed by a blank and the arguments only when they are non-empty |
| ToolTarget.WebAndLspTargets | python/agentize/permission/parser.py:53-62 | WebFetch gives the url, WebSearch `query=Q` and LSP `op=O file=F:L` with the line in decimal |
| ToolTarget.QuestionTargets | python/agentize/permission/parser.py:63-68 | AskUserQuestion without questions gives ''; with header-bearing questions it gives `questions=` and the headers joined by commas |
| ToolTarget.HeadersOfHeaderObjects | python/agentize/permission/parser.py:66 | questions built from headers give those headers back |
| ToolTarget.TodoTarget | python/agentize/permission/parser.py:69-71 | TodoWrite gives `todos=N` with N the number of todos, and `todos=0` when the key is missing |
| ToolTarget.OtherToolTarget | python/agentize/permission/parser.py:72-74 | any other tool gets a prefix of at most 100 characters of `str` of the payload, and the whole of it when it is that short; a string payload is cut as it is, without quotes |
| ToolTarget.ObjectPayloadOutcome | python/agentize/permission/parser.py:23-74 | for an object payload, every formatting branch yields a string, and only Skill, AskUserQuestion and TodoWrite can raise |
| PermissionGate.JudgeNeedsReply | python/agentize/permission/determine.py:39-110 | a judge verdict other than 'ask' needs the auto-permission flag, a readable transcript and a reply; 'allow' needs a reply starting with "allow" once stripped and lower-cased, 'deny' one starting with "deny" and not with "allow" |
| PermissionGate.AllowanceAllows | python/agentize/permission/determine.py:93-94 | the reply is classified by prefix, so "Allowance" allows |
| PermissionGate.ShoutedDenyDenies | python/agentize/permission/determine.py:87-96 | leading blanks are stripped and case is ignored, so "  DENY." denies |
| PermissionGate.OtherReplyAsks | python/agentize/permission/determine.py:97-101 | a reply that starts with none of the three words asks |
| PermissionGate.EnableIsNotATelegramValue | python/agentize/permission/determine.py:113-116 | 'enable' switches the judge on but is not one of the values that switch the human channel on |
| PermissionGate.ParseUserIds | python/agentize/permission/determine.py:137-139 | the parsed ids are at most as many as the comma-separated parts |
| PermissionGate.ParseUserIdsSpec | python/agentize/permission/determine.py:137-139 | the parse succeeds exactly when every stripped non-blank part is an integer to `int()`, and then gives their values in order; otherwise it raises ValueError |
| Text.ParsePyInt | python/agentize/permission/determine.py:132-139 | `int()` accepts no string that is blank once stripped; ParsePyIntSpec gives the whole accepted language and the values |
| Text.ParsePyIntSpec | python/agentize/permission/determine.py:132-139 | `int()` on a string accepts exactly an optional sign and one or more digits once surrounding blanks are stripped, '-' negates the digits' value, and surrounding blanks change nothing |
| Text.IntDecimalRoundTrip | python/agentize/permission/determine.py:132-139 | `int(str(i)) == i` for every integer |
| PermissionGate.PollLoop | python/agentize/permission/determine.py:234-274 | one `getUpdates` offset is sent per reply consumed, and the first request carries the initial offset |
| PermissionGate.ScanBatch | python/agentize/permission/determine.py:244-274 | the loop over one batch of updates returns the decision and offset of the update-by-update scan function |
| PermissionGate.PollForDecision | python/agentize/permission/determine.py:234-274 | the polling loop returns the decision and the offsets of the reply-by-reply loop function |
| PermissionGate.TelegramApproval | python/agentize/permission/determine.py:177-283 | the method returns the approval function's outcome, and a decision it returns is never 'ask' |
| PermissionGate.CommandNeverAsks | python/agentize/permission/determine.py:257-274 | a batch scan decides only 'allow' or 'deny' |
| PermissionGate.PollLoopNeverAsks | python/agentize/permission/determine.py:234-274 | the polling loop decides only 'allow' or 'deny' |
| PermissionGate.ScanDecisionHasSource | python/agentize/permission/determine.py:244-274 | a decision comes from one update of the batch that an allowed responder sent with the matching command |
| PermissionGate.PollDecisionHasSource | python/agentize/permission/determine.py:234-274 | a decision comes from one update of one successful reply, sent by an allowed responder with the matching command |
| PermissionGate.ScanOffsetIsLastSeen | python/agentize/permission/determine.py:244-245 | when no update decides, the next offset is the last update's id plus one, or the old offset for an empty batch |
| PermissionGate.FailedPollKeepsOffset | python/agentize/permission/determine.py:240-242 | a failed or not-ok reply leaves the offset of the next request unchanged |
| PermissionGate.NoTimeNoDecision | python/agentize/permission/determine.py:233-283 | with a timeout of zero or less the loop never polls and there is no decision |
| PermissionGate.SilentChannel | python/agentize/permission/determine.py:189-227 | the human channel gives no decision when it is off, when the token or chat id is missing, or when the request could not be sent |
| PermissionGate.NotAnInteger | python/agentize/permission/determine.py:133 | `int("soon")` raises |
| PermissionGate.BadTimeoutRaises | python/agentize/permission/determine.py:133 | a timeout that `int()` rejects makes the human channel raise |
| PermissionGate.RuleVerdictIsFinal | python/agentize/permission/determine.py:298-308 | a rule allow or deny is returned with the rule's tag, whatever the other calls give |
| PermissionGate.RuleAskConsultsHuman | python/agentize/permission/determine.py:301-308 | a rule 'ask' defers to the human channel and falls back to the rule's own verdict |
| PermissionGate.NoRuleAsksJudge | python/agentize/permission/determine.py:310-319 | with no rule match the judge decides under 'haiku', and a judge 'ask' goes to the human channel |
| PermissionGate.FallbackOrder | python/agentize/permission/determine.py:320-335 | after the main path raises the judge is retried; after that raises too, only the human channel is left, and its silence gives ('ask', 'error') |
| PermissionGate.CheckPermissionRaises | python/agentize/permission/determine.py:296-335 | the cascade raises exactly when the main path, the retry and the unguarded last call all raise |
| PermissionGate.CheckPermissionNotTotal | python/agentize/permission/determine.py:330-335 | an exception from the last human-channel call escapes the cascade |
| PermissionGate.AllowHasWitness | python/agentize/permission/determine.py:286-335 | an allow is always a rule's allow under the rule's tag, a judge allow under 'haiku' or a human allow under 'telegram'; the 'error' source always carries 'ask' |
| PermissionGate.LastResortEscapes | python/agentize/permission/determine.py:330-335 | with both earlier paths raising, a non-integer timeout escapes the cascade |
| PermissionGate.TaggedRuleSourcesUnlogged | python/agentize/permission/determine.py:351-362 | a verdict tagged `rules:<kind>` or 'error' is never logged, because the routing compares the source exactly |
| PermissionGate.LogRouteNeedsBothFlags | python/agentize/permission/determine.py:338-362 | a log is written only when both debug flags are on; each file receives exactly the verdicts of its source |
| PermissionGate.DetectWorkflow | python/agentize/permission/determine.py:365-382 | the workflow is 'plan' exactly for 'ultra-planner', 'impl' exactly for 'issue-to-impl' and 'unknown' otherwise, including for a missing or unreadable file |
| PermissionGate.DetermineUsesCascade | python/agentize/permission/determine.py:385-425 | `determine` returns the cascade's decision; the matcher sees the Bash command normalised and other targets unchanged, while the judge and the log see the raw target |
| PermissionGate.DetermineNeedsNames | python/agentize/permission/determine.py:401-402 | a payload without `tool_name` or `session_id` raises before any call is made |
| WorkerSlots.ApplyLinesAppend | python/agentize/server/workers.py:243-258 | folding the lines of a file is folding its first part and then the rest from there |
| WorkerSlots.KeyValueLine | python/agentize/server/workers.py:244-246 | a `key=value` line with no blank at either end is split at the `=` right after the key |
| WorkerSlots.StateLineSets | python/agentize/server/workers.py:247-248 | a `state=` line sets the state to its value |
| WorkerSlots.IssueLineSets | python/agentize/server/workers.py:249-251 | an `issue=` line with a decimal number sets the issue to that number |
| WorkerSlots.PidLineSets | python/agentize/server/workers.py:254-256 | a `pid=` line with a decimal number sets the pid to that number |
| WorkerSlots.RecordHasNoBreaks | python/agentize/server/workers.py:280-287 | the lines of a written record hold no line break, and the file holds no carriage return |
| WorkerSlots.StatusRoundTrip | python/agentize/server/workers.py:228-287 | reading a written record back gives the state, and the issue and pid exactly when they were written |
| WorkerSlots.OtherLinesIgnored | python/agentize/server/workers.py:245-258 | a line without `=`, or with a key other than state, issue and pid, changes nothing |
| WorkerSlots.MalformedNumberDropped | python/agentize/server/workers.py:250-258 | an issue or pid value that `int()` rejects is skipped and any earlier value is kept |
| WorkerSlots.LastStateWins | python/agentize/server/workers.py:247-248 | the last state line of a file decides the state |
| WorkerSlots.EmptyReadsFree | python/agentize/server/workers.py:236-240 | a missing or empty file reads as FREE without issue or pid |
| WorkerSlots.FirstFreeFrom | python/agentize/server/workers.py:299-303 | the slot found is the first one from the start whose state is exactly FREE, and there is none exactly when no slot below the bound is FREE |
| WorkerSlots.BusyWithoutPidIsLive | python/agentize/server/workers.py:317-319 | a BUSY slot without a pid is live whatever the process probe says |
| WorkerSlots.MissingSlotIsFree | python/agentize/server/workers.py:236-237 | a slot without a file is FREE and live |
| WorkerSlots.CleanedStepDead | python/agentize/server/workers.py:352-377 | handling one more dead slot rewrites it FREE on top of the slots already handled |
| WorkerSlots.CleanedStepLive | python/agentize/server/workers.py:352-353 | a live slot is skipped |
| WorkerSlots.IndexRemovalNeedsAll | python/agentize/server/workers.py:358-375 | an issue leaves the index only when a dead slot held it, the credentials and session directory are set, the issue is non-zero, its session is done and the notice went out |
| WorkerSlots.IndexOnlyShrinks | python/agentize/server/workers.py:352-377 | cleanup never adds to the issue index |
| WorkerSlots.SlotRange | python/agentize/server/workers.py:213 | `range(n)` holds exactly the slot ids from 0 below n |
| WorkerSlots.InitializedStep | python/agentize/server/workers.py:213-225 | slot i gets a FREE record exactly when its file is missing or its read raised |
| WorkerSlots.ParsePidFromOutput | python/agentize/server/workers.py:17-27 | the loop returns the specification's pid: the first line with a match decides |
| WorkerSlots.NoMarkerNoPid | python/agentize/server/workers.py:23-24 | a line without "PID" from some position on has no match from there |
| WorkerSlots.PidLineRoundTrip | python/agentize/server/workers.py:17-27 | the output `PID: <n>` yields n |
| WorkerSlots.SlotDirectory.WriteWorkerStatus | python/agentize/server/workers.py:263-290 | the slot's file is replaced whole by the encoded record and the index is unchanged |
| WorkerSlots.SlotDirectory.ReadWorkerStatus | python/agentize/server/workers.py:228-260 | the record read is the fold of the slot's file from FREE |
| WorkerSlots.SlotDirectory.GetFreeWorker | python/agentize/server/workers.py:293-303 | the loop returns the first slot below n whose state is exactly FREE |
| WorkerSlots.SlotDirectory.CheckWorkerLiveness | python/agentize/server/workers.py:306-326 | a slot is live unless it is BUSY with a pid that the probe reports dead |
| WorkerSlots.SlotDirectory.CleanupDeadWorkers | python/agentize/server/workers.py:329-377 | the new files are the old ones with every dead slot below n rewritten FREE, and the index loses exactly the notified issues |
| WorkerSlots.SlotDirectory.ReleaseIssue | python/agentize/server/workers.py:358-375 | the files are unchanged and the issue leaves the index exactly when the notice conditions hold |
| WorkerSlots.SlotDirectory.InitWorkerStatusFiles | python/agentize/server/workers.py:205-225 | every missing or unreadable slot below n gets a FREE record, the rest are kept, and the index is unchanged |
| WorkerSlots.CleanupFreesExactlyDead | python/agentize/server/workers.py:352-377 | cleanup leaves live slots and slots outside the range untouched and frees every dead slot below n |
| WorkerSlots.InitKeepsReadable | python/agentize/server/workers.py:213-225 | after initialisation every slot below n exists, readable files are kept and the others read FREE |
| PollServer.ParsePeriod | python/agentize/server/__main__.py:47-54 | the only failure is ValueError |
| PollServer.PeriodRoundTrip | python/agentize/server/__main__.py:47-54 | "<n>m" parses to 60·n seconds and "<n>s" to n seconds, for every integer n |
| PollServer.PeriodQuirks | python/agentize/server/__main__.py:49-54 | "-1m" is accepted as -60 seconds, since the sign goes through `int()`, and a bare number raises |
| PollServer.LazyCut | python/agentize/server/__main__.py:120-125 | the lazy group ends at the first cut from k on after which the optional `.git` and the end of the text follow |
| PollServer.LazyCutIs | python/agentize/server/__main__.py:120-125 | the first such cut is the one the lazy group takes |
| PollServer.RepoCutPlain | python/agentize/server/__main__.py:120-125 | a repository name not ending in `.git` is taken whole |
| PollServer.RepoCutGit | python/agentize/server/__main__.py:120-125 | `name.git` is cut back to the name |
| PollServer.HttpsSlug | python/agentize/server/__main__.py:120-122 | an `https://github.com/` URL gives the slug of what follows the host |
| PollServer.SshSlug | python/agentize/server/__main__.py:124-127 | a `git@github.com:` URL gives the slug of what follows the colon |
| PollServer.SlugRoundTrip | python/agentize/server/__main__.py:105-129 | both URL forms of "owner/repo" give "owner/repo" back |
| PollServer.SlugRoundTripGit | python/agentize/server/__main__.py:105-129 | both URL forms of "owner/repo.git" give "owner/repo" |
| PollServer.PathTrimmed | python/agentize/server/__main__.py:338-339 | a trailing '/' is removed, leaving the path with or without `.git` |
| PollServer.GitDropped | python/agentize/server/__main__.py:340-341 | a `.git` ending is removed |
| PollServer.PathSegments | python/agentize/server/__main__.py:337-345 | "owner/repo" with `.git`, a trailing '/', or both, gives the owner and the repository |
| PollServer.SshRemote | python/agentize/server/__main__.py:329-330 | for the SSH form everything after the first ':' is the path |
| PollServer.HttpsPiece | python/agentize/server/__main__.py:332-333 | in `https://github.com/<path>` the piece after the first "github.com/" is the path when the path holds no other one |
| PollServer.HttpsRemote | python/agentize/server/__main__.py:332-333 | for the HTTPS form the text after "github.com/" is the path |
| PollServer.NoRemoteRaises | python/agentize/server/__main__.py:324-325 | a failed `git remote get-url` raises RuntimeError |
| PollServer.ReadyIssues | python/agentize/server/__main__.py:529-569 | no more issues are returned than there are items |
| PollServer.FilterReadyIssues | python/agentize/server/__main__.py:529-569 | the loop returns the ready-issue function of the items |
| PollServer.ReadyIssuesAppend | python/agentize/server/__main__.py:536-563 | filtering commutes with concatenation, so the input order is kept |
| PollServer.ReadyIssuesExact | python/agentize/server/__main__.py:536-563 | a number is returned exactly when some item with that number has status 'Plan Accepted' and the 'agentize:plan' label |
| PollServer.ConflictingPrs | python/agentize/server/__main__.py:598-622 | no more PRs are returned than were given |
| PollServer.FilterConflictingPrs | python/agentize/server/__main__.py:598-622 | the loop returns the conflicting-PR function of the list |
| PollServer.ConflictingPrsAppend | python/agentize/server/__main__.py:607-620 | filtering commutes with concatenation |
| PollServer.ConflictingPrsExact | python/agentize/server/__main__.py:607-620 | a number is returned exactly when some PR with that number is CONFLICTING; UNKNOWN and healthy PRs are skipped |
| PollServer.BranchIssue | python/agentize/server/__main__.py:634-637 | a branch gives an issue exactly when it starts with "issue-" followed by a digit |
| PollServer.HashNumberFrom | python/agentize/server/__main__.py:647-651 | the body gives no number exactly when no '#' followed by a digit occurs in it |
| PollServer.ResolutionOrder | python/agentize/server/__main__.py:625-653 | the branch name wins, then the first closing reference when it has a number key, then the body; None exactly when each consulted source gives nothing |
| PollServer.BranchRoundTrip | python/agentize/server/__main__.py:635-637 | a branch "issue-<n>" followed by a non-digit resolves to n |
| PollServer.HashSkips | python/agentize/server/__main__.py:649 | the search skips every position before the first '#' followed by a digit |
| PollServer.BodyRoundTrip | python/agentize/server/__main__.py:647-651 | the first "#<n>" of a body without an earlier '#' gives n |
| PollServer.LaunchOf | python/agentize/server/__main__.py:656-703 | a launch raises exactly when the shell call raises, fails exactly on a non-zero exit, and otherwise carries the pid of the first "PID" line |
| PollServer.ProbeCheck | python/agentize/server/__main__.py:678-681 | a `wt pathto` probe raises exactly when the shell call raises; the worktree is there exactly when the call exits 0, and the candidate is taken exactly when that is what its pass asks for |
| PollServer.IssueJobs | python/agentize/server/__main__.py:949-963 | there is one candidate per ready issue, the `k`-th taken exactly when its own `wt pathto` call finds no worktree, ending the cycle when that call raises, and launched with its own `wt spawn` call |
| PollServer.Metadata | python/agentize/server/__main__.py:990 | the map holds exactly the numbers the PRs carry |
| PollServer.MetadataLastWins | python/agentize/server/__main__.py:990 | each number maps to the last PR that carries it |
| PollServer.PrJobs | python/agentize/server/__main__.py:992-1013 | there is one candidate per conflicting PR, built from its metadata entry; a resolved issue is probed anew with the rebase pass's own `wt pathto` call, so it sees worktrees the issue pass spawned |
| PollServer.AssignPass | python/agentize/server/__main__.py:949-1024 | the assignment loop ends with the files and the raised flag of the pass function, and the index is unchanged |
| PollServer.RunPollCycle | python/agentize/server/__main__.py:927-1034 | one iteration of the server loop leaves the files and the index of the cycle function, in which cleanup, the issue pass and the rebase pass each ask the shell anew; a raising probe or launch ends the cycle |
| PollServer.StartSlots | python/agentize/server/__main__.py:900-909 | with a positive slot count the files are initialised and then cleaned, and the issue index loses the issues of the dead slots that cleanup notifies; otherwise files and index are unchanged |
| PollServer.AssignUnboundedKeeps | python/agentize/server/__main__.py:977-981 | with no slot bound no launch writes a slot |
| PollServer.NoSlotsBypass | python/agentize/server/__main__.py:930-1005 | with no slot bound a cycle changes neither the files nor the index |
| PollServer.AssignKeepsNonFree | python/agentize/server/__main__.py:955-975 | a pass writes only slots it found FREE: every other slot keeps its record |
| PollServer.NoFreeSlotSkipsRest | python/agentize/server/__main__.py:950-959 | with no FREE slot at the start nothing is launched and nothing is written; the pass raises exactly when a `wt pathto` probe raises before the first candidate taken |
| PollServer.WrittenSlot | python/agentize/server/__main__.py:962-965 | a slot just written reads back as the record written |
| PollServer.LaunchedKeepsSlot | python/agentize/server/__main__.py:956-966 | a job that passes its checks takes the first FREE slot and keeps it, BUSY with its issue and the launch's pid, to the end of the pass |
| PollServer.RaisedLeavesClaim | python/agentize/server/__main__.py:962-963 | a launch that raises ends the pass with its slot claimed: BUSY, the issue and no pid |
| PollServer.FailedFreesSlot | python/agentize/server/__main__.py:974-976 | a launch that reports failure frees its slot again before the next candidate |
| PollServer.StrandedSlotPersists | python/agentize/server/__main__.py:927-1034 | a slot left BUSY without a pid survives a whole cycle unchanged |
| PollServer.StrandedForever | python/agentize/server/__main__.py:927-1034 | such a slot is never reclaimed, however many cycles follow |
| PollServer.CleanupBeforeDiscovery | python/agentize/server/__main__.py:930-966 | cleanup runs first: the first ready issue without a worktree gets the first slot that is FREE after this cycle's cleanup and holds it at the end of the cycle |
| PollServer.StrandedByLaunch | python/agentize/server/__main__.py:962-965 | a spawn that raises, or succeeds without a PID line, leaves its slot BUSY with no pid, and no later cycle rewrites it |
| RuntimeConfig.KeptLine | python/agentize/server/runtime_config.py:103-107 | a raw line contributes at most one kept line, and never a blank or comment one |
| RuntimeConfig.ConfigLines | python/agentize/server/runtime_config.py:101-107 | there are no more kept lines than raw lines, and none is blank or a comment |
| RuntimeConfig.ReadConfigLines | python/agentize/server/runtime_config.py:101-107 | the reading loop returns the kept lines of the file's lines |
| RuntimeConfig.Unquote | python/agentize/server/runtime_config.py:138-139 | unquoting never lengthens the value |
| RuntimeConfig.Partition | python/agentize/server/runtime_config.py:133-135 | there is no key/value pair exactly when the text has no ':' |
| RuntimeConfig.BlockEnd | python/agentize/server/runtime_config.py:253-261 | the block end is the first line from the start whose indent is at most the parent's, or the end; every line before it is deeper |
| RuntimeConfig.FindBlockEnd | python/agentize/server/runtime_config.py:253-261 | the loop returns that block end |
| RuntimeConfig.WithEntry | python/agentize/server/runtime_config.py:224-236 | a line without ':' leaves the item dict as it is; otherwise it sets the line's key to its value |
| RuntimeConfig.AbsorbKeys | python/agentize/server/runtime_config.py:218-237 | absorbing stops at the end, at a line no deeper than the item or at a dash line, and every line absorbed is deeper and not a dash |
| RuntimeConfig.ListItem | python/agentize/server/runtime_config.py:188-248 | each dash item consumes at least its own line and stays within the range |
| RuntimeConfig.ParsedList | python/agentize/server/runtime_config.py:171-250 | the list stops at the end or at the first line no deeper than its parent |
| RuntimeConfig.AbsorbLoop | python/agentize/server/runtime_config.py:218-237 | the inner loop returns the dict and stop index of the absorb function |
| RuntimeConfig.ParseItem | python/agentize/server/runtime_config.py:188-248 | one dash item is parsed as the list-item function says |
| RuntimeConfig.ParseList | python/agentize/server/runtime_config.py:171-250 | the list loop returns the items and stop index of the list function |
| RuntimeConfig.DictStep | python/agentize/server/runtime_config.py:117-166 | one step of the dict loop always advances and stays within the range |
| RuntimeConfig.NestedValue | python/agentize/server/runtime_config.py:148-166 | the value of a key without a value consumes at least the key's own line |
| RuntimeConfig.ParseLines | python/agentize/server/runtime_config.py:112-168 | the dict loop returns the dict function of the range |
| RuntimeConfig.ParseEntry | python/agentize/server/runtime_config.py:117-166 | one iteration of the dict loop returns the dict and next index of the step function |
| RuntimeConfig.ParseYamlFile | python/agentize/server/runtime_config.py:83-109 | parsing a file gives the parse function of its text |
| RuntimeConfig.Nearest | python/agentize/server/runtime_config.py:54-64 | the file found is the one in the nearest directory that has it, and none is found exactly when no directory of the chain has it |
| RuntimeConfig.FindConfigFile | python/agentize/server/runtime_config.py:54-64 | the upward search returns that nearest file |
| RuntimeConfig.ValidKeys | python/agentize/server/runtime_config.py:72-78 | the key check passes exactly when every top-level key is a valid one |
| RuntimeConfig.LoadRuntimeConfig | python/agentize/server/runtime_config.py:31-80 | loading gives the load function of the directory chain |
| RuntimeConfig.NoConfigFile | python/agentize/server/runtime_config.py:66-67 | with no file anywhere, the result is an empty dict and no path |
| RuntimeConfig.LoadValidates | python/agentize/server/runtime_config.py:66-80 | a load succeeds exactly when the nearest file has only valid top-level keys, returns that file's dict and path, and otherwise raises ValueError |
| RuntimeConfig.ConfigLinesAppend | python/agentize/server/runtime_config.py:101-107 | the kept lines of a concatenation are those of its parts, in order |
| RuntimeConfig.KeptLineIs | python/agentize/server/runtime_config.py:103-107 | a line is dropped exactly when blank or a comment, and otherwise kept with its leading-whitespace width and its stripped text |
| RuntimeConfig.QuotedRoundTrip | python/agentize/server/runtime_config.py:138-139 | wrapping a text in matching quotes and unquoting gives the text back |
| RuntimeConfig.QuotedNumberIsInt | python/agentize/server/runtime_config.py:138-146 | a quoted decimal still becomes a number once unquoted |
| RuntimeConfig.FirstPresent | python/agentize/server/runtime_config.py:264-289 | there is no value exactly when every layer is absent |
| RuntimeConfig.PrecedenceIsFirstPresent | python/agentize/server/runtime_config.py:264-289 | the precedence rule returns the first present layer of CLI, environment, file and default |
| RuntimeConfig.FirstPresentIsALayer | python/agentize/server/runtime_config.py:264-289 | the value returned is some layer's value, with every higher layer absent |
| RuntimeConfig.FalsyValueWins | python/agentize/server/runtime_config.py:283-284 | a present CLI value wins even when it is 0 or the empty string |
| RuntimeConfig.ModelOf | python/agentize/server/runtime_config.py:311-315 | a model is configured only when it is one of the valid model names |
| RuntimeConfig.WorkflowModels | python/agentize/server/runtime_config.py:292-317 | the result maps only valid workflow names to valid models; the only failure is TypeError and needs `workflows` to be a dict |
| RuntimeConfig.ExtractWorkflowModels | python/agentize/server/runtime_config.py:292-317 | the loop over the workflows returns the workflow-models function of the config |
| RuntimeConfig.WorkflowModelsExact | python/agentize/server/runtime_config.py:303-315 | a workflow is in the result exactly when it is valid and configures a valid model, and then it maps to that model |
| RuntimeConfig.NonDictWorkflows | python/agentize/server/runtime_config.py:303-305 | a missing, empty or non-dict `workflows` configures no model |
| RuntimeConfig.PartitionAtFirstColon | python/agentize/server/runtime_config.py:133-139 | the text is split at the first ':', so a ':' in the value stays in the value |
| RuntimeConfig.QuotedItemIsScalar | python/agentize/server/runtime_config.py:190-195 | a fully quoted list item is a string even when it contains ':' |
| RuntimeConfig.DictStepKeys | python/agentize/server/runtime_config.py:117-166 | one step adds exactly the key of its line and changes no other entry |
| RuntimeConfig.ParsedDictKeys | python/agentize/server/runtime_config.py:112-168 | the parsed dict has no key that is not written on one of its own lines: nested blocks never add keys at this level |
| RuntimeConfig.ValidKeysLoad | python/agentize/server/runtime_config.py:66-80 | a file whose every key line names a valid top-level key always loads |
| RuntimeConfig.AbsorbKeysKeys | python/agentize/server/runtime_config.py:206-237 | the dict of a list item holds its first key and exactly the keys of the lines it absorbs |
| RuntimeConfig.KeyWithoutValue | python/agentize/server/runtime_config.py:148-166 | a key without a value is `{}` when the next line is not deeper, a list when it is a deeper dash, and otherwise a dict over the deeper block, after which parsing resumes |
| ImplKernels.UnconfiguredKernel | python/agentize/workflow/impl/kernels.py:30-35 | the result is fatal and its reason names the stage |
| ImplKernels.KernelsTable | python/agentize/workflow/impl/kernels.py:38-67 | the table maps exactly the four working stages, the terminal stage has no kernel, and each kernel fails with a reason naming its own stage |
| ImplKernels.NumberAfter | python/agentize/workflow/impl/kernels.py:85-90 | a number read after a keyword ends within the text |
| ImplKernels.FirstMatchNone | python/agentize/workflow/impl/kernels.py:85-96 | a search finds nothing exactly when no position from its start matches |
| ImplKernels.Clamp | python/agentize/workflow/impl/kernels.py:87-92 | the clamped value lies in [0, 100], equals the value inside that range, and is 0 below it and 100 above it |
| ImplKernels.ParseQualityScore | python/agentize/workflow/impl/kernels.py:70-99 | the score always lies in [0, 100] |
| ImplKernels.NoPatternNeutral | python/agentize/workflow/impl/kernels.py:99 | text in which none of the three keywords can start scores the neutral 50 |
| ImplKernels.SkipNoMatch | python/agentize/workflow/impl/kernels.py:85 | positions without a match do not change where the search ends up |
| ImplKernels.NotKeywordStart | python/agentize/workflow/impl/kernels.py:85-95 | a position whose character cannot start the keyword has no match |
| ImplKernels.NumberAfterRuns | python/agentize/workflow/impl/kernels.py:85-90 | the number after a keyword is read from the greedy separator run, an optional minus sign and the greedy digit run |
| ImplKernels.NumberAfterKeyword | python/agentize/workflow/impl/kernels.py:85-90 | a number written after a keyword and a non-empty run of ':' and blanks is read back exactly |
| ImplKernels.DecimalWritten | python/agentize/workflow/impl/kernels.py:87 | `str(n)` is a signed digit run whose digits read back as the magnitude of n |
| ImplKernels.EmbeddedNumber | python/agentize/workflow/impl/kernels.py:85-90 | a number copied into a longer text before a non-digit keeps its reading |
| ImplKernels.PlainPrefix | python/agentize/workflow/impl/kernels.py:85-90 | a prefix with no character that can start the keyword does not change what the search finds |
| ImplKernels.ScoreMatchAt | python/agentize/workflow/impl/kernels.py:85 | "Score: " and a number followed by "/100" is a Score match of that number |
| ImplKernels.ScoreFound | python/agentize/workflow/impl/kernels.py:85 | a "Score: N/100" with no 'S' or 's' before it is what the Score search finds |
| ImplKernels.LaidOutMatch | python/agentize/workflow/impl/kernels.py:85 | a laid-out "Score: N/100" is a Score match of N at its keyword |
| ImplKernels.ScoreAfterPlainText | python/agentize/workflow/impl/kernels.py:84-87 | "Score: N/100" after text without 'S' or 's' scores N, clamped |
| ImplKernels.OverallScore | python/agentize/workflow/impl/kernels.py:84-87 | "Overall Score: N/100", the layout the review prompt asks for, scores N, clamped |
| ImplKernels.NoScore | python/agentize/workflow/impl/kernels.py:85 | text without 'S' or 's' has no Score match |
| ImplKernels.QualityMatchAt | python/agentize/workflow/impl/kernels.py:90 | "Quality: " and a number is a Quality match of that number |
| ImplKernels.QualityLine | python/agentize/workflow/impl/kernels.py:89-92 | "Quality: N" scores N, clamped |
| ImplKernels.ScoreBeatsEarlierQuality | python/agentize/workflow/impl/kernels.py:84-92 | the Score pattern is tried first wherever it is, so a Quality line before it does not count |
| ImplKernels.ReviewKernel | python/agentize/workflow/impl/kernels.py:395-485 | without an implementation output the review fails with score 0; a pipeline error passes with score 75; otherwise the score lies in [0, 100] and the review passes exactly when it reaches the threshold |
| ImplKernels.NoOutputNoPrompt | python/agentize/workflow/impl/kernels.py:423-424 | without an implementation output the prompt's outcome plays no part |
| ImplKernels.ThresholdBoundary | python/agentize/workflow/impl/kernels.py:476-477 | with the default threshold 70, a score of 69 fails and 70 passes |
| ImplKernels.MissingReviewFile | python/agentize/workflow/impl/kernels.py:475-476 | a review that left no output file reads as empty text and scores 50 |
| ImplKernels.RStripKeeps | python/agentize/workflow/impl/kernels.py:226 | trimming the end keeps everything up to a non-blank character |
| ImplKernels.Section | python/agentize/workflow/impl/kernels.py:214-226 | the section is empty exactly for missing or empty content, and otherwise starts with the rule and ends in exactly one newline |
| ImplKernels.IterationSection | python/agentize/workflow/impl/kernels.py:197-211 | the section is empty exactly for no iteration, and otherwise starts with "Current iteration: N" and ends in a newline |
| ImplKernels.ClosesTextMatches | python/agentize/workflow/impl/kernels.py:617 | "Closes #" followed by the issue number's text matches, whatever follows it |
| ImplKernels.LongerNumberCounts | python/agentize/workflow/impl/kernels.py:617 | issue 42 counts as closed by "Closes #420", since the pattern has no end anchor |
| ImplKernels.ClosesLineLayout | python/agentize/workflow/impl/kernels.py:619 | the appended line holds "Closes #" and the issue number right after its leading newline |
| ImplKernels.WithClosesLineMatches | python/agentize/workflow/impl/kernels.py:609-620 | after the append the text always has a closes line for the issue |
| ImplKernels.WithClosesLineIdempotent | python/agentize/workflow/impl/kernels.py:609-620 | appending twice gives what appending once gives |
| ImplKernels.WithClosesLineShape | python/agentize/workflow/impl/kernels.py:617-619 | an existing closes line leaves the text unchanged; otherwise the text trimmed of trailing newlines is followed by exactly one new line |
| ImplKernels.FinalizeFile.AppendClosesLine | python/agentize/workflow/impl/kernels.py:609-620 | the new text is the append function of the old one and holds a closes line for the issue |
| ImplKernels.SimpResult | python/agentize/workflow/impl/kernels.py:514-527 | the kernel reports success exactly when the workflow completed; every exception becomes a failure |
| ImplKernels.FirstUnexpected | python/agentize/workflow/impl/kernels.py:516-522 | there is no unexpected keyword exactly when all keywords are accepted, and one found is not accepted |
| ImplKernels.SimpKernelAlwaysFails | python/agentize/workflow/impl/kernels.py:516-527 | the workflow takes no `issue_number` or `focus` argument, so the call raises TypeError and the kernel fails whatever the workflow would do |
| Simp.ParseBackendSpec | python/agentize/workflow/simp/simp.py:24-31 | a backend without ':' is refused; otherwise the provider is the text before the first ':' and the model the rest |
| Simp.ParseBackendRoundTrip | python/agentize/workflow/simp/simp.py:24-31 | a provider without ':' joined to any model parses back into both |
| Simp.ArgInt | python/agentize/workflow/simp/simp.py:35-38 | a string argument is read as a number exactly when it is a non-empty run of digits |
| Simp.ParseMaxFiles | python/agentize/workflow/simp/simp.py:34-45 | an accepted file count is positive |
| Simp.ParseMaxFilesSpec | python/agentize/workflow/simp/simp.py:34-45 | accepted are exactly a positive int and a digit string of positive value; a leading sign is refused |
| Simp.ParseMaxFilesRoundTrip | python/agentize/workflow/simp/simp.py:34-45 | the decimal text of a positive count parses back to it, and "0" is refused |
| Simp.ParseSeedSpec | python/agentize/workflow/simp/simp.py:48-55 | no seed stays none, an int is kept, and a string is refused exactly when it is not all digits, so "-1" is refused |
| Simp.GitLsFiles | python/agentize/workflow/simp/simp.py:76-83 | a successful listing is never empty |
| Simp.GitLsFilesSpec | python/agentize/workflow/simp/simp.py:76-83 | a failed listing raises, an empty one raises "No tracked files", and otherwise the files are the stripped non-blank lines |
| Simp.SelectFilesSpec | python/agentize/workflow/simp/simp.py:86-100 | an explicit path selects exactly itself; otherwise the selection is a prefix of a permutation of the tracked files, at most max-files long and never empty; selection never raises "No files selected" |
| Simp.FormatFileBlockShape | python/agentize/workflow/simp/simp.py:103-109 | the block is the path header, a fence, the content without trailing newlines and a closing fence, and the content can be read back from between them |
| Simp.FileBlocks | python/agentize/workflow/simp/simp.py:119-122 | there is one block per selected file, and a failure names a selected file that is missing |
| Simp.FileBlocksSpec | python/agentize/workflow/simp/simp.py:119-122 | the blocks are produced exactly when every selected file exists, one per file in order |
| Simp.ValidateArgs | python/agentize/workflow/simp/simp.py:148-150 | validated arguments carry a positive file count |
| Simp.ValidationBeforeFilesystem | python/agentize/workflow/simp/simp.py:148-154 | every validator runs before any filesystem work, so a bad argument leaves `.tmp` alone |
| Simp.NoFilesSelectedUnreachable | python/agentize/workflow/simp/simp.py:156-164 | "No files selected" is never raised |
| Simp.CompletedRunWrites | python/agentize/workflow/simp/simp.py:152-191 | a run that returns has made `.tmp`; of the files simp writes itself, it has written exactly the targets list and the rendered prompt (`.tmp/simp-output.md` is written by the agent session, which is an oracle) |
| Simp.TmpDir.RunSimpWorkflow | python/agentize/workflow/simp/simp.py:140-191 | the failure and the new directory state are those of the workflow function: `.tmp` exists after it is made, and exactly the files written are added |
| Simp.TmpDir.RunSelected | python/agentize/workflow/simp/simp.py:163-191 | the steps after selection fail as the function says and add exactly the files it writes |
| EvalHarness.FilterIds | python/agentize/eval/eval_harness.py:48-50 | filtering never adds rows |
| EvalHarness.FilterIdsSpec | python/agentize/eval/eval_harness.py:48-50 | the filter keeps exactly the rows with a listed id, every copy of each (a row occurs as often as in the dataset when its id is listed, and not at all otherwise), in dataset order |
| EvalHarness.FilterIdsAppend | python/agentize/eval/eval_harness.py:48-50 | filtering a concatenation is filtering each part in turn |
| EvalHarness.DuplicateRowsKept | python/agentize/eval/eval_harness.py:48-50 | a listed row that occurs twice in the dataset is kept twice |
| EvalHarness.LoadTasksSpec | python/agentize/eval/eval_harness.py:32-55 | the tasks are an ordered subsequence of the dataset; before the limit they are exactly the rows with a listed id, each as often as it occurs in the dataset, or every row when no id is given; no or a zero limit keeps them all, a positive limit keeps the first `limit` of them (all when fewer), a negative one drops that many from the end |
| EvalHarness.PrefixSubsequence | python/agentize/eval/eval_harness.py:52-53 | cutting to a limit keeps the order of the dataset |
| EvalHarness.FirstListedKept | python/agentize/eval/eval_harness.py:48-53 | a listed id whose row comes first survives a positive limit |
| EvalHarness.NegativeLimitDropsTail | python/agentize/eval/eval_harness.py:52-53 | a negative limit drops that many rows from the end, as the slice does |
| EvalHarness.EvalKernelsSpec | python/agentize/eval/eval_harness.py:222-244 | the eval table covers exactly the production stages, runs the no-ops for PR and rebase with their pass events and "eval mode" reasons, and keeps every other production kernel |
| EvalHarness.ExtractPatchShape | python/agentize/eval/eval_harness.py:399-402 | the patch is empty exactly when the diff is blank, and otherwise is the stripped diff followed by one newline |
| EvalHarness.ExtractPatchIdempotent | python/agentize/eval/eval_harness.py:399-402 | extracting a patch from its own text gives it back |
| EvalHarness.StripAddedNewline | python/agentize/eval/eval_harness.py:399-401 | stripping a text without outer blanks plus one newline gives the text back |
| EvalHarness.RunImplStatus | python/agentize/eval/eval_harness.py:158-215 | a timeout reports the timeout as its wall time and no tokens; otherwise exit code 0 is "completed" and any other "failed", with input plus output tokens; "error" never survives |
| EvalHarness.CountStatus | python/agentize/eval/eval_harness.py:448-450 | a status count never exceeds the number of rows |
| EvalHarness.CompletedTokens | python/agentize/eval/eval_harness.py:441-442 | the token counts kept are all positive |
| EvalHarness.Insert | python/agentize/eval/eval_harness.py:452 | inserting adds exactly one element |
| EvalHarness.SortInts | python/agentize/eval/eval_harness.py:452 | `sorted` returns a permutation of its input |
| EvalHarness.InsertSorted | python/agentize/eval/eval_harness.py:452 | inserting into a sorted list keeps it sorted |
| EvalHarness.SortIntsSorted | python/agentize/eval/eval_harness.py:452 | `sorted` returns a sorted list |
| EvalHarness.EmptyMetrics | python/agentize/eval/eval_harness.py:439-456 | no results give 0 for every count, the median and the total |
| EvalHarness.StatusCountsWithinTotal | python/agentize/eval/eval_harness.py:446-450 | the four status counts add up to no more than the number of rows |
| EvalHarness.CountsOfSort | python/agentize/eval/eval_harness.py:452 | sorting does not change how many elements lie below or above a value |
| EvalHarness.SortedCounts | python/agentize/eval/eval_harness.py:452 | in a sorted list, at most m elements lie below the m-th one and at most the rest above it |
| EvalHarness.MedianSpec | python/agentize/eval/eval_harness.py:442-452 | the median is one of the positive completed token counts, with at most half the list below it and at most the rest above it, and 0 when there is none |
| EvalHarness.TotalCoversEach | python/agentize/eval/eval_harness.py:453 | the total is no smaller than any positive count it sums |
| EvalHarness.MedianWithinTotal | python/agentize/eval/eval_harness.py:452-453 | the median never exceeds the total, and both are 0 together |
| EvalHarness.MixedStatuses | python/agentize/eval/eval_harness.py:441-453 | only completed rows with tokens count: a failed row with tokens does not |
| EvalHarness.OddMedian | python/agentize/eval/eval_harness.py:452-453 | three completed rows of 100, 200 and 300 tokens give median 200 and total 600 |
| WorkflowUtils.ResolveAcwScriptSpec | python/agentize/workflow/utils.py:137-141 | a set, non-empty `PLANNER_ACW_SCRIPT` override is used as is; otherwise the script path is the home directory joined with `src/cli/acw.sh` |
| WorkflowUtils.CmdPartsLayout | python/agentize/workflow/utils.py:214-226 | the argument list is the four positional arguments, then (claude only) `--tools T` and `--permission-mode P` when given and non-empty, then the extra flags in order; its length is exactly that sum |
| WorkflowUtils.OtherProvidersGetNoClaudeFlags | python/agentize/workflow/utils.py:219-224 | a provider other than claude never receives `--tools` or `--permission-mode`, only positional and extra arguments |
| WorkflowUtils.BuildCmdParts | python/agentize/workflow/utils.py:214-226 | the list built by successive appends equals the layout described by the argument-list specification |
| WorkflowUtils.RunAcw | python/agentize/workflow/utils.py:185-228 | the shell is run once, on exactly the specified argument list and with the caller's timeout, and its outcome, a finished process or a timeout, is passed on unchanged |
| WorkflowUtils.ProvidersFromSpec | python/agentize/workflow/utils.py:172-179 | a non-zero exit fails with the stripped stderr, else the stripped stdout, else a non-empty fallback reason; a zero exit with no non-blank line fails with "no providers"; a success is a non-empty list of stripped, non-empty names |
| WorkflowUtils.ProviderCache.ListAcwProviders | python/agentize/workflow/utils.py:166-182 | a cached list is returned without running the listing; otherwise `--complete providers` runs once with a 30 second timeout and only a successful result is cached; a timeout escapes and leaves the cache empty |
| WorkflowUtils.CheckProviderSpec | python/agentize/workflow/utils.py:255-260 | construction is refused exactly when the listing failed or does not name the provider; an unknown provider's error names it and lists every known provider joined by ", " |
| WorkflowUtils.TruncateSpec | python/agentize/workflow/utils.py:290 | `int(...)` of the elapsed time drops the fraction toward zero, for both signs |
| WorkflowUtils.Acw.Run | python/agentize/workflow/utils.py:269-294 | a run emits the start message and invokes the shell once with the runner's arguments and timeout; a finished run then emits the elapsed whole seconds and returns the process, while a timeout escapes with only the first message emitted |
| WorkflowUtils.NewAcw | python/agentize/workflow/utils.py:234-260 | the provider list is fetched through the cache; a listing timeout raises and caches nothing; a runner exists exactly when no error is raised, and then carries every constructor argument and an empty trace |
| WorkflowUtils.RunMessagesShape | python/agentize/workflow/utils.py:275-293 | the two progress messages differ and both carry the runner's label right after their first word |
| SessionState.TrimLogsSpec | vscode/src/state/sessionStore.ts:269-275 | a log list is cut to its newest lines: the result is the suffix of length min(n, 1000), and a list within the limit is kept whole |
| SessionState.VisibleSkipsSpace | vscode/src/state/sessionStore.ts:265 | a leading run of whitespace contributes no visible character |
| SessionState.CollapseWsSpec | vscode/src/state/sessionStore.ts:265 | replacing every whitespace run by one space leaves only single spaces as whitespace, keeps every other character in order, is empty only for the empty string, and starts with a space exactly when the input starts with whitespace |
| SessionState.CollapsedSlice | vscode/src/state/sessionStore.ts:266 | cutting a collapsed title keeps it collapsed |
| SessionState.TrimCollapsed | vscode/src/state/sessionStore.ts:265 | trimming a collapsed string keeps it collapsed and keeps its visible characters, and leaves no space at either end |
| SessionState.VisibleTail | vscode/src/state/sessionStore.ts:265 | dropping a whitespace tail keeps the visible characters |
| SessionState.DeriveTitleSpec | vscode/src/state/sessionStore.ts:260-267 | an empty prompt is titled "New Plan"; otherwise the title is the collapsed, trimmed prompt, cut to 20 characters plus "..." when longer, so at most 23 characters with no outer spaces |
| SessionState.DerivePhaseSpec | vscode/src/state/sessionStore.ts:378-399 | each phase holds exactly under its status condition: implementing when the implementation runs, completed when it finished, then refining, planning, plan-completed and idle in that order of priority |
| SessionState.MigrateSessionSpec | vscode/src/state/sessionStore.ts:350-376 | a migrated session is at schema version 2, its phase agrees with its statuses, its logs and statuses are kept, and logs without widgets are moved into one new active terminal widget |
| SessionState.LoadSpec | vscode/src/state/sessionStore.ts:222-246 | after loading every session is at version 2 or later, loading the loaded state again changes nothing and migrates nothing, no session is lost, and persisting happens exactly when some stored session was older |
| SessionState.ApplyUpdateSpec | vscode/src/state/sessionStore.ts:71-80 | an update overwrites only the fields it gives: an empty one only stamps the time, applying one twice is applying it once, and two in a row equal the merged update with the later winning |
| SessionState.FindIndex | vscode/src/state/sessionStore.ts:38 | the index found is of the first session with the id; none is found only when no session has it |
| SessionState.EditAtSpec | vscode/src/state/sessionStore.ts:71-210 | an edit of an unknown id leaves every session and returns nothing; otherwise exactly the first session with the id is replaced by its edited value, which is returned, and all others stay |
| SessionState.ToggleTwice | vscode/src/state/sessionStore.ts:188-210 | toggling a collapse flag twice restores the session apart from its time stamp, and one toggle negates the flag |
| SessionState.StoreToggleTwice | vscode/src/state/sessionStore.ts:188-198 | two toggles through the store restore every session's collapse flag |
| SessionState.AppendSessionLogsSpec | vscode/src/state/sessionStore.ts:82-93 | appended logs keep the last 1000 of old and new lines; an active terminal widget gets the lines; without a handle exactly one new terminal widget is added and made active; other widgets and runs stay |
| SessionState.EditRefineRunSpec | vscode/src/state/sessionStore.ts:121-186 | only runs with the run id change: their logs gain the lines and keep the last 1000, or their status is set, or their collapse flag flips, with the time stamped; every other run and the session's logs, widgets and status stay |
| SessionState.NewSessionSpec | vscode/src/state/sessionStore.ts:42-69 | a new session is idle in every status, at phase idle and schema version 2, has no logs, widgets or runs, keeps the trimmed prompt, has a non-empty title and equal creation and update times |
| SessionState.WithoutSpec | vscode/src/state/sessionStore.ts:212-215 | deleting removes every session with the id and keeps every other one |
| SessionState.WithoutAppend | vscode/src/state/sessionStore.ts:213 | deleting works piece by piece, so the kept sessions stay in order |
| SessionState.SessionStore.constructor | vscode/src/state/sessionStore.ts:16-18 | the store starts from the loaded state, and the memento is rewritten only when loading migrated a session |
| SessionState.SessionStore.GetSession | vscode/src/state/sessionStore.ts:37-40 | a session is returned exactly when one has the id, and it is the first stored session with that id |
| SessionState.SessionStore.CreateSession | vscode/src/state/sessionStore.ts:42-69 | exactly one new session is appended, the draft is kept, and the new state is persisted |
| SessionState.SessionStore.Edit | vscode/src/state/sessionStore.ts:71-80 | the store's sessions and result are those of the edit specification; the state is persisted only when the id was found |
| SessionState.SessionStore.UpdateSession | vscode/src/state/sessionStore.ts:71-80 | an update of the session with the id, as the edit specification states, persisted when found |
| SessionState.SessionStore.AppendSessionLogs | vscode/src/state/sessionStore.ts:82-93 | an append of session logs, as the edit specification states, persisted when found |
| SessionState.SessionStore.AppendImplLogs | vscode/src/state/sessionStore.ts:95-106 | an append of implementation logs, as the edit specification states, persisted when found |
| SessionState.SessionStore.AddRefineRun | vscode/src/state/sessionStore.ts:108-119 | a refinement run added at the end, as the edit specification states, persisted when found |
| SessionState.SessionStore.AppendRefineRunLogs | vscode/src/state/sessionStore.ts:121-142 | an append of logs to the runs with the run id, as the refinement-run specification states |
| SessionState.SessionStore.UpdateRefineRunStatus | vscode/src/state/sessionStore.ts:144-164 | a status set on the runs with the run id, as the refinement-run specification states |
| SessionState.SessionStore.ToggleRefineRunCollapse | vscode/src/state/sessionStore.ts:166-186 | a collapse flip of the runs with the run id, as the refinement-run specification states |
| SessionState.SessionStore.ToggleSessionCollapse | vscode/src/state/sessionStore.ts:188-198 | the session's collapse flag flips; a second flip restores it |
| SessionState.SessionStore.ToggleImplCollapse | vscode/src/state/sessionStore.ts:200-210 | the session's implementation collapse flag flips; a second flip restores it |
| SessionState.SessionStore.DeleteSession | vscode/src/state/sessionStore.ts:212-215 | every session with the id is removed, the rest stay in order, and the state is persisted even when nothing was removed |
| SessionState.SessionStore.UpdateDraftInput | vscode/src/state/sessionStore.ts:217-220 | only the draft input changes, and the state is persisted |
| ViewHelpers.GitHubUrlValid | vscode/src/view/unifiedViewProvider.ts:515-518 | every canonical issue or pull request URL, with a non-empty owner and repository free of '/', is accepted |
| ViewHelpers.GitHubUrlCanonical | vscode/src/view/unifiedViewProvider.ts:515-518 | every accepted URL is exactly the canonical URL of its four path pieces, so nothing else is accepted |
| ViewHelpers.FirstMatchSpec | vscode/src/view/unifiedViewProvider.ts:1439 | a search from a position returns the match at some later position, and finds nothing only when no position matches |
| ViewHelpers.FirstMatchAt | vscode/src/view/unifiedViewProvider.ts:1439 | the leftmost matching position wins |
| ViewHelpers.ExtractIssueNumberSpec | vscode/src/view/unifiedViewProvider.ts:1438-1450 | whatever is extracted is a decimal number, and the placeholder message is preferred over an issue URL |
| ViewHelpers.PlaceholderExtracted | vscode/src/view/unifiedViewProvider.ts:1439-1442 | a line starting with "Created placeholder issue #N" yields N |
| ViewHelpers.IssueUrlExtracted | vscode/src/view/unifiedViewProvider.ts:1444-1447 | a line starting with an issue URL, and without the placeholder message, yields the URL's issue number |
| ViewHelpers.IssueUrlAtParts | vscode/src/view/unifiedViewProvider.ts:1444 | an issue URL at a position yields its number |
| ViewHelpers.StripQuotesSpec | vscode/src/view/unifiedViewProvider.ts:731-740 | a value wrapped in matching double or single quotes comes back without them, a lone quote comes back empty, and an unquoted trimmed value comes back unchanged |
| ViewHelpers.BackendSpecSpec | vscode/src/view/unifiedViewProvider.ts:742-757 | every `provider:model` with non-empty, whitespace-free parts and a colon-free provider is valid; a valid spec's trimmed form splits at its first colon into such parts |
| ViewHelpers.CapProgressEventsSpec | vscode/src/view/unifiedViewProvider.ts:1006 | the newest 200 events are kept, in order, ending with the one just recorded |
| ViewHelpers.LatestFailedRun | vscode/src/view/unifiedViewProvider.ts:883-885 | the run picked is a failed run with the newest update time, the earliest of equals, and none is picked only when no run failed |
| ViewHelpers.TrimmedOrTrimmed | vscode/src/view/unifiedViewProvider.ts:857 | a trimmed value or its fallback is trimmed |
| ViewHelpers.ResolveRerunComplete | vscode/src/view/unifiedViewProvider.ts:852-906 | every invocation is complete for its command: a refine has a prompt and a non-empty trimmed issue (numeric, with a non-blank prompt, when configured), an implementation a non-empty trimmed issue, a plan neither |
| ViewHelpers.ResolveRerunFallback | vscode/src/view/unifiedViewProvider.ts:875-905 | without a configured rerun, nothing is rerun when nothing failed, and a failed implementation is only ever re-implemented |
| ViewHelpers.ConfiguredRerunDecides | vscode/src/view/unifiedViewProvider.ts:856-873 | a configured rerun decides alone: the command resolved is the configured one, and the statuses and refinement runs play no part, so an incomplete configured refine does not fall through |
| ViewHelpers.BuildActionButtonsLayout | vscode/src/view/unifiedViewProvider.ts:1774-1879 | a busy session in a rerun, refine or implement mode shows one disabled button for that action; otherwise the five-button row in order, plus an enabled "View PR" exactly after a successful implementation with a PR URL |
| ViewHelpers.RowIdsDistinct | vscode/src/view/unifiedViewProvider.ts:1822-1876 | the ids of the full row are distinct |
| ViewHelpers.ImplementEnabled | vscode/src/view/unifiedViewProvider.ts:1837-1845 | implementing is offered exactly for a successful plan whose issue is not closed, while neither planning, refining nor implementing |
| ViewHelpers.RefineEnabled | vscode/src/view/unifiedViewProvider.ts:1847-1854 | refining is offered exactly for a finished plan while nothing runs |
| ViewHelpers.RerunEnabled | vscode/src/view/unifiedViewProvider.ts:1856-1862 | rerunning is offered exactly when nothing runs, the last rerun did not exit with 0, and a rerun target resolves |
| PlannerConfig.SplitCrLf | vscode/src/view/unifiedViewProvider.ts:699 | splitting at `\r?\n` always gives at least one piece |
| PlannerConfig.SplitCrLfJoin | vscode/src/view/unifiedViewProvider.ts:699 | lines free of `\r` and `\n`, joined by `\n` or `\r\n`, split back into exactly those lines |
| PlannerConfig.KeyColonEnd | vscode/src/view/unifiedViewProvider.ts:723 | when `^\s*key\s*:` matches, the key sits at the line's indent and the colon lies after it |
| PlannerConfig.CaptureEnd | vscode/src/view/unifiedViewProvider.ts:723 | the lazy capture ends at the first position after which `\s*(?:#.*)?$` matches |
| PlannerConfig.WalkAppend | vscode/src/view/unifiedViewProvider.ts:704-727 | scanning two runs of lines is scanning the first and then the second from the state the first left |
| PlannerConfig.ExtractPlannerBackend | vscode/src/view/unifiedViewProvider.ts:695-729 | the loop over the lines returns exactly the value the line-by-line scan specification finds |
| PlannerConfig.HeaderFrom | vscode/src/view/unifiedViewProvider.ts:766-772 | the index found is the first `planner:` header line at or after the start, and none is found only when no later line is a header |
| PlannerConfig.SkippedIsTrimTest | vscode/src/view/unifiedViewProvider.ts:785-788 | a line is skipped as blank or comment exactly when its trimmed text is empty or starts with '#' |
| PlannerConfig.ScanSectionSpec | vscode/src/view/unifiedViewProvider.ts:783-799 | the block scan stops at the first line indented under the header that sets the backend key, with the insertion point after it, or before the first dedented line; every line passed over is blank, a comment, or indented without the key |
| PlannerConfig.FindPlannerHeader | vscode/src/view/unifiedViewProvider.ts:766-772 | the first loop yields -1 exactly when no line is a header, and otherwise the first header's index and indent |
| PlannerConfig.ScanPlannerSection | vscode/src/view/unifiedViewProvider.ts:780-799 | the second loop yields the backend line (or -1) and the insertion point the block-scan specification describes |
| PlannerConfig.SetBackendLine | vscode/src/view/unifiedViewProvider.ts:780-809 | the lines after the scan are the block's lines with its backend line rewritten under its own indent, or a new one two spaces under the header inserted where the scan stopped |
| PlannerConfig.UpdatePlannerBackend | vscode/src/view/unifiedViewProvider.ts:759-816 | the method returns exactly the text the update specification describes: the backend line replaced or inserted in the block, or a new block appended |
| PlannerConfig.ReadBackWithHeader | vscode/src/view/unifiedViewProvider.ts:780-815 | in a file with a `planner:` header, the backend written is the backend read back |
| PlannerConfig.ReadBackWithoutHeader | vscode/src/view/unifiedViewProvider.ts:774-778 | in a file without a header, the appended block is read back as the backend written |
| PlannerConfig.TrimEndNoHeader | vscode/src/view/unifiedViewProvider.ts:775 | trimming trailing whitespace from a file without a header does not create one |
| PlannerConfig.UpdatedWithoutHeader | vscode/src/view/unifiedViewProvider.ts:774-778 | without a header the result is the trimmed text, a blank line and the appended block, or the block alone for a blank file |
| PlannerConfig.UpdateThenExtract | vscode/src/view/unifiedViewProvider.ts:695-816 | saving a trimmed valid backend without '#' or outer quotes and reading the file back gives that backend |
| PlannerConfig.HashBackendReadsBack | vscode/src/view/unifiedViewProvider.ts:723 | a valid spec holding '#' does not survive the round trip: `a:#b` saved into an empty file reads back as `a:` |
| PlannerConfig.SaveThenLoad | vscode/src/view/unifiedViewProvider.ts:636-655 | saving is refused for an invalid spec, and then for the repo scope without a workspace ("Open a workspace to edit repo settings."), and succeeds otherwise; a saved spec without '#' or outer quotes is read back trimmed from the file |
| SettingsWebview.SplitBackendSpec | vscode/webview/settings/index.ts:226-236 | provider and model are both empty or both set; a split has a colon-free provider and, put back together around ':', gives the quote-stripped spec |
| SettingsWebview.SplitBackendOf | vscode/webview/settings/index.ts:226-236 | every way of writing the quote-stripped spec as a non-empty, colon-free provider, ':' and a non-empty model is the split, so the split is at the first colon |
| SettingsWebview.SplitBackendAgrees | vscode/webview/settings/index.ts:226-236 | for an unquoted spec the extension accepts, the webview splits where the extension's check does, into non-empty parts |
| SettingsWebview.SplitBackendLooser | vscode/webview/settings/index.ts:226-236 | the webview splits specs the extension rejects: `a b:c` splits into `a b` and `c` |
| SettingsWebview.ShownBackendSpec | vscode/webview/settings/index.ts:238-260 | the current backend reads "Not set" exactly when nothing is selected and no model is entered; otherwise it is the quote-stripped spec, equal to the selected provider, ':' and the model text |
| SettingsWebview.WithOptionSpec | vscode/webview/settings/index.ts:181-193 | existing options stay in place, a non-empty provider ends up offered, nothing is added for a known or empty provider, and distinct options stay distinct |
| SettingsWebview.SaveStepOf | vscode/webview/settings/index.ts:299-309 | a backend is posted exactly when the trimmed provider and model are both non-empty; a missing provider is reported before a missing model; the posted backend is trimmed provider ':' trimmed model |
| SettingsWebview.PostedTrimmed | vscode/webview/settings/index.ts:299-309 | a posted backend is already trimmed |
| SettingsWebview.PostedSplitsBack | vscode/webview/settings/index.ts:226-309 | a posted backend with a colon-free provider and no outer quotes splits back into the trimmed provider and model |
| SettingsWebview.PostedIsValid | vscode/webview/settings/index.ts:309 | a posted backend whose parts hold no whitespace, with a colon-free provider, passes the extension's backend check |
| SettingsWebview.ShownSplit | vscode/webview/settings/index.ts:253-259 | a loaded backend that splits into non-empty parts is shown as exactly those parts |
| SettingsWebview.SaveReloadShowsSaved | vscode/webview/settings/index.ts:238-313 | a backend posted from the form is saved unless it goes to the repo scope with no workspace open; once written into a settings file and read back, it shows the same trimmed provider and model again |
| SettingsWebview.SettingsForm.constructor | vscode/webview/settings/index.ts:195-213 | the provider select starts with the empty placeholder followed by the five built-in providers, nothing selected and no message posted |
| SettingsWebview.SettingsForm.ApplyBackend | vscode/webview/settings/index.ts:238-260 | the select, model text and current-backend text become the shown view of the loaded backend, the split provider is offered, and nothing else changes |
| SettingsWebview.SettingsForm.SaveScope | vscode/webview/settings/index.ts:293-313 | an incomplete form gets an inline error and posts nothing; a complete one shows "Saving...", disables the button and posts exactly one save request with the trimmed backend |

## Left out

- Process, network and file-system effects are oracles or inputs, not modelled; their results are parameters:
  - subprocess calls (`gh`, `git`, `wt`, `claude`, the `acw` shell script);
  - Telegram HTTP;
  - `os.kill` probing;
  - file reads, writes, renames, `mkdir` and `chdir`.
- The rule matcher `match_rule` is an oracle. Its module is not part of this model.
- Clocks and randomness are parameters:
  - `time.monotonic` deadlines and sleeps (the Telegram wait is a poll budget);
  - `Date.now()`;
  - `Math.random` ids;
  - `random.shuffle`, which is any permutation.
- Floating point:
  - the `tokens_mean` and time metrics of `aggregate_metrics`;
  - the binary rounding of `float(x) * 10` in the Rating pattern, which is modelled on the decimal digits;
  - `ACW.run`'s elapsed time, which is a `real` truncated toward zero.
- Unicode: `\d`, `\w` and `int()` are modelled on ASCII digits and word characters only. The model also omits `int()`'s underscore separators, the non-ASCII mappings of `lower()` (it lowers ASCII letters only), and UTF-16 code units against code points in `slice`/`length`. `re.IGNORECASE` is modelled in full for the classes the patterns use: `[a-z]` also matches U+0130, U+0131, U+017F and U+212A, and `s` also matches U+017F.
- Dictionary order. A parsed YAML mapping is a `map`, so the model does not say which key a `ValueError` names.
- Message and template text is not modelled:
  - prompt rendering (`prompt_utils.render` is not part of this model);
  - Telegram message formatting (`escape_html` is not part of this model);
  - `write_overrides`;
  - `notify_server_start`.
- `_cmd_run` and `impl_kernel`, which are step-by-step git and file side effects, are not modelled. `_stage_and_commit` and impl.py are not part of this model.
- The label-removal `gh` calls in `cleanup_dead_workers` are not modelled.
- `ImplKernels.StageName` and the stage events: `python/agentize/workflow/impl/state.py` is not part of this model. The stage texts `impl`, `review`, `pr`, `rebase` and `finish` are taken as the stages' names, and the events are only distinguished from each other.
- `WorkflowUtils.Message`: for `subprocess.TimeoutExpired`, only the text after the quoted command is modelled. The command is `bash -c` with the quoted `acw` call, and its quoting is not modelled.
- `PlannerTTY` is not modelled: it is an animation thread with tty and colour checks.
- `_run_acw_shell`'s shell quoting is not modelled. The shell is a function of the argument list and the timeout.
- The log destination of `_log_debug_info` is not modelled. Only the routing decision is.
- `ACW._emit`'s destination is not modelled: stderr under `_ACW_LOG_LOCK`, or the log writer. The trace records each message in order.
- Concurrency and UI are not modelled:
  - the server's signal handler;
  - the webview DOM;
  - the view's message handlers: `handleMessage`, `startRun`, `handleRunEvent`, `buildHtml` and the `post*` messages.
- `SessionState.SessionStore`: the model does not capture these parts of the store:
  - **Aliasing.** Sessions are values, so the copies `cloneSession` hands out need no modelling.
  - **Ill-typed stored data.** A stored session's fields are assumed to have their declared types.
  - **Widget metadata, `updateWidgetMetadata` and the widget helpers of the view.**
- The validators' arguments in `_parse_max_files` and `_parse_seed` are only integers and strings (`ArgValue`). A Python `bool` is the integer 0 or 1 there. Arguments of any other type are not modelled.
- The extension's reading of settings files from the search paths (`resolveBackendForRun`) is not modelled; how a file's text is read is.
- `PlannerConfig.UpdateThenExtract` holds only for these inputs:
  - a trimmed spec that `isValidBackendSpec` accepts;
  - no `#` in the spec: the reading regex takes `#` for a comment (`PlannerConfig.HashBackendReadsBack`);
  - no outer quotes in the spec: `stripQuotes` removes them;
  - a file whose line breaks are `\n` or `\r\n` only. A lone `\r`, U+2028 and U+2029 end a line for `.` in the regex but not for the split.
- `SettingsWebview.SaveReloadShowsSaved` holds only for the same inputs, and only for parts that hold no whitespace and a provider without `:`. Those are the specs the extension accepts.
