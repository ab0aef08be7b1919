/**
 * The pure parts of the SWE-bench evaluation harness
 * (`python/agentize/eval/eval_harness.py`): task selection, the kernel
 * table of full mode, patch normalisation, the status of one headless run
 * and the summary metrics.
 */
module EvalHarness {
  import opened Wrappers
  import opened Text
  import opened ImplKernels

  // ---------------------------------------------------------------------
  // load_tasks
  // ---------------------------------------------------------------------

  /** A dataset row; only its `instance_id` takes part in selection. */
  datatype Task = Task(instanceId: string, fields: map<string, string>)

  /** The rows whose id is in `ids`, in dataset order. */
  function FilterIds(tasks: seq<Task>, ids: set<string>): (r: seq<Task>)
    ensures |r| <= |tasks|
  {
    if tasks == [] then []
    else if tasks[0].instanceId in ids then [tasks[0]] + FilterIds(tasks[1..], ids)
    else FilterIds(tasks[1..], ids)
  }

  /** `a` is `b` with some elements left out and the rest in the same order. */
  predicate Subsequence<T(==)>(a: seq<T>, b: seq<T>)
    decreases |b|
  {
    if a == [] then true
    else if b == [] then false
    else if a[0] == b[0] then Subsequence(a[1..], b[1..])
    else Subsequence(a, b[1..])
  }

  /**
   * The filter keeps exactly the rows with a listed id, every copy of each,
   * and keeps them in order.
   */
  lemma {:induction false} FilterIdsSpec(tasks: seq<Task>, ids: set<string>)
    ensures forall t :: t in FilterIds(tasks, ids) <==> t in tasks && t.instanceId in ids
    ensures forall t :: multiset(FilterIds(tasks, ids))[t] == if t.instanceId in ids then multiset(tasks)[t] else 0
    ensures Subsequence(FilterIds(tasks, ids), tasks)
  {
    if tasks != [] {
      FilterIdsSpec(tasks[1..], ids);
      assert tasks == [tasks[0]] + tasks[1..];
    }
  }

  /** A listed row that occurs twice is kept twice. */
  lemma DuplicateRowsKept(a: Task, b: Task)
    requires a.instanceId != b.instanceId
    ensures FilterIds([a, b, a], {a.instanceId}) == [a, a]
  {
    var ids := {a.instanceId};
    assert [a, b, a][1..] == [b, a] && [b, a][1..] == [a] && [a][1..] == [];
    assert FilterIds([a], ids) == [a];
    assert FilterIds([b, a], ids) == [a];
  }

  /** Filtering distributes over concatenation. */
  lemma {:induction false} FilterIdsAppend(a: seq<Task>, b: seq<Task>, ids: set<string>)
    ensures FilterIds(a + b, ids) == FilterIds(a, ids) + FilterIds(b, ids)
    decreases |a|
  {
    if a != [] {
      assert (a + b)[1..] == a[1..] + b;
      FilterIdsAppend(a[1..], b, ids);
    } else {
      assert a + b == b;
    }
  }

  /** The rows kept before the limit: those with a listed id, or every row when no id is listed. */
  function Selected(tasks: seq<Task>, instanceIds: Option<seq<string>>): seq<Task>
  {
    if instanceIds.Some? && instanceIds.value != [] then FilterIds(tasks, set i | i in instanceIds.value) else tasks
  }

  /** `load_tasks` on the loaded dataset rows: an empty or absent id list and a zero or absent limit are no-ops. */
  function LoadTasks(tasks: seq<Task>, instanceIds: Option<seq<string>>, limit: Option<int>): (r: seq<Task>)
  {
    var kept := Selected(tasks, instanceIds);
    if limit.Some? && limit.value != 0 then SliceTo(kept, limit.value) else kept
  }

  /**
   * What `load_tasks` returns: the rows with a listed id (all rows when no id
   * is listed) in dataset order, cut by the limit as `tasks[:limit]` cuts:
   * untouched for no or a zero limit, the first `limit` rows for a positive
   * one, all but the last `-limit` rows for a negative one.
   */
  lemma LoadTasksSpec(tasks: seq<Task>, instanceIds: Option<seq<string>>, limit: Option<int>)
    ensures var r := LoadTasks(tasks, instanceIds, limit);
      var kept := Selected(tasks, instanceIds);
      && Subsequence(r, tasks)
      && (forall t :: t in r ==> t in tasks)
      && (instanceIds.Some? && instanceIds.value != [] ==>
            (forall t :: t in kept <==> t in tasks && t.instanceId in instanceIds.value)
            && forall t :: multiset(kept)[t] == if t.instanceId in instanceIds.value then multiset(tasks)[t] else 0)
      && ((instanceIds.None? || instanceIds.value == []) ==> kept == tasks)
      && ((limit.None? || limit.value == 0) ==> r == kept)
      && (limit.Some? && limit.value > 0 ==> r == kept[..if limit.value < |kept| then limit.value else |kept|])
      && (limit.Some? && limit.value < 0 ==> r == kept[..if |kept| + limit.value > 0 then |kept| + limit.value else 0])
  {
    var ids := if instanceIds.Some? then set i | i in instanceIds.value else {};
    var kept := Selected(tasks, instanceIds);
    FilterIdsSpec(tasks, ids);
    SubsequenceRefl(tasks);
    var r := LoadTasks(tasks, instanceIds, limit);
    assert r <= kept;
    PrefixSubsequence(r, kept, tasks);
  }

  lemma {:induction false} SubsequenceRefl<T>(a: seq<T>)
    ensures Subsequence(a, a)
    decreases |a|
  {
    if a != [] {
      SubsequenceRefl(a[1..]);
    }
  }

  /** A prefix of a subsequence is a subsequence. */
  lemma {:induction false} PrefixSubsequence<T>(a: seq<T>, b: seq<T>, c: seq<T>)
    requires a <= b && Subsequence(b, c)
    ensures Subsequence(a, c)
    decreases |c|
  {
    if a != [] && c != [] {
      if b[0] == c[0] {
        PrefixSubsequence(a[1..], b[1..], c[1..]);
      } else {
        PrefixSubsequence(a, b, c[1..]);
      }
    }
  }

  /** A listed id whose row comes first survives a positive limit. */
  lemma FirstListedKept(tasks: seq<Task>, ids: seq<string>, limit: int)
    requires tasks != [] && ids != [] && tasks[0].instanceId in ids && limit > 0
    ensures LoadTasks(tasks, Some(ids), Some(limit)) != [] && LoadTasks(tasks, Some(ids), Some(limit))[0] == tasks[0]
  {
  }

  /** A negative limit drops that many rows from the end, as the slice does. */
  lemma NegativeLimitDropsTail(tasks: seq<Task>, limit: int)
    requires limit < 0
    ensures LoadTasks(tasks, None, Some(limit)) == if |tasks| + limit > 0 then tasks[..|tasks| + limit] else []
  {
  }

  // ---------------------------------------------------------------------
  // _build_eval_kernels
  // ---------------------------------------------------------------------

  /** A kernel of full-mode evaluation: a production one, or one of the two no-op replacements. */
  datatype EvalKernel = Production(kernel: Kernel) | EvalPrKernel | EvalRebaseKernel

  /** What each kernel returns; the no-ops pass their stage without touching GitHub or git. */
  function RunEvalKernel(k: EvalKernel): StageResult {
    match k
    case Production(kernel) => RunKernel(kernel)
    case EvalPrKernel => StageResult(EventPrPass, "eval mode: PR skipped")
    case EvalRebaseKernel => StageResult(EventRebaseOk, "eval mode: rebase skipped")
  }

  /** `_build_eval_kernels`: a copy of the production table with the PR and rebase entries replaced. */
  function BuildEvalKernels(): (r: map<Stage, EvalKernel>)
  {
    var copy := map s | s in Kernels :: Production(Kernels[s]);
    copy[StagePr := EvalPrKernel][StageRebase := EvalRebaseKernel]
  }

  /**
   * The eval table covers exactly the production stages, runs the no-ops for
   * PR and rebase, and keeps every other production kernel.  The production
   * table, a value, is not changed.
   */
  lemma EvalKernelsSpec()
    ensures BuildEvalKernels().Keys == Kernels.Keys
    ensures BuildEvalKernels()[StagePr] == EvalPrKernel && BuildEvalKernels()[StageRebase] == EvalRebaseKernel
    ensures forall s :: s in Kernels && s != StagePr && s != StageRebase ==> BuildEvalKernels()[s] == Production(Kernels[s])
    ensures RunEvalKernel(BuildEvalKernels()[StagePr]).event == EventPrPass
    ensures RunEvalKernel(BuildEvalKernels()[StageRebase]).event == EventRebaseOk
    ensures Contains(RunEvalKernel(BuildEvalKernels()[StagePr]).reason, "eval mode")
    ensures Contains(RunEvalKernel(BuildEvalKernels()[StageRebase]).reason, "eval mode")
  {
    KernelsTable();
    EvalModeReasons();
  }

  /** Both no-op reasons mention eval mode. */
  lemma EvalModeReasons()
    ensures Contains(RunEvalKernel(EvalPrKernel).reason, "eval mode")
    ensures Contains(RunEvalKernel(EvalRebaseKernel).reason, "eval mode")
  {
    var pr := "eval mode: PR skipped";
    var rebase := "eval mode: rebase skipped";
    assert pr[..9] == "eval mode";
    assert rebase[..9] == "eval mode";
    FindFromContains(pr, "eval mode");
    FindFromContains(rebase, "eval mode");
  }

  // ---------------------------------------------------------------------
  // extract_patch
  // ---------------------------------------------------------------------

  /** `extract_patch` on the output of `git diff`: stripped, then given a final newline. */
  function ExtractPatch(diff: string): (r: string)
  {
    var patch := PyStrip(diff);
    if patch != [] && patch[|patch| - 1] != '\n' then patch + "\n" else patch
  }

  /** The patch is empty exactly when the diff is blank; otherwise it is the stripped diff and one newline. */
  lemma ExtractPatchShape(diff: string)
    ensures ExtractPatch(diff) == [] <==> PyStrip(diff) == []
    ensures ExtractPatch(diff) != [] ==> ExtractPatch(diff) == PyStrip(diff) + "\n"
    ensures |ExtractPatch(diff)| >= 2 ==> ExtractPatch(diff)[|ExtractPatch(diff)| - 2] != '\n'
  {
    StripByEdges(diff, PySpace);
  }

  /** A patch extracted again from its own text is unchanged. */
  lemma ExtractPatchIdempotent(diff: string)
    ensures ExtractPatch(ExtractPatch(diff)) == ExtractPatch(diff)
  {
    var p := PyStrip(diff);
    ExtractPatchShape(diff);
    if p != [] {
      StripByEdges(diff, PySpace);
      StripAddedNewline(p);
    }
  }

  /** Stripping a text without outer blanks and one added newline gives the text back. */
  lemma StripAddedNewline(p: string)
    requires p != [] && !IsPySpace(p[0]) && !IsPySpace(p[|p| - 1])
    ensures PyStrip(p + "\n") == p
  {
    var t := p + "\n";
    assert t[0] == p[0];
    SpanExact(t, PySpace, 0);
    assert t[0..] == t;
    SpanEndExact(t, PySpace, 1);
    assert t[..|t| - 1] == p;
  }

  // ---------------------------------------------------------------------
  // run_impl
  // ---------------------------------------------------------------------

  /**
   * How the headless `claude -p` call ended: killed at the timeout, or exited
   * with a code after `elapsed` seconds; `usage` is the parsed JSON's "usage"
   * object (missing keys read as 0), None when stdout was empty or not JSON.
   */
  datatype RunEnd = TimedOut | Exited(returnCode: int, elapsed: real, usage: Option<map<string, int>>)

  /** The result row `run_impl` returns. */
  datatype ImplRun = ImplRun(instanceId: string, status: string, wallTime: real, tokens: int)

  function UsageOf(usage: map<string, int>, key: string): int {
    if key in usage then usage[key] else 0
  }

  /** `run_impl` given how the call ended and its timeout in seconds. */
  function RunImpl(instanceId: string, timeout: int, end: RunEnd): (r: ImplRun)
  {
    match end
    case TimedOut => ImplRun(instanceId, "timeout", timeout as real, 0)
    case Exited(code, elapsed, usage) =>
      var tokens := if usage.Some? then UsageOf(usage.value, "input_tokens") + UsageOf(usage.value, "output_tokens") else 0;
      ImplRun(instanceId, if code == 0 then "completed" else "failed", elapsed, tokens)
  }

  /**
   * A timeout reports the timeout as its wall time and no tokens; otherwise
   * exit code 0 is "completed" and any other "failed", with input plus output
   * tokens.  The initial "error" status never survives a returned run.
   */
  lemma RunImplStatus(instanceId: string, timeout: int, end: RunEnd)
    ensures var r := RunImpl(instanceId, timeout, end);
      && r.instanceId == instanceId
      && (end.TimedOut? <==> r.status == "timeout")
      && (end.TimedOut? ==> r.wallTime == timeout as real && r.tokens == 0)
      && (end.Exited? ==> (r.status == "completed" <==> end.returnCode == 0) && r.wallTime == end.elapsed)
      && (end.Exited? && end.usage.Some? ==>
            r.tokens == UsageOf(end.usage.value, "input_tokens") + UsageOf(end.usage.value, "output_tokens"))
      && r.status != "error"
  {
  }

  // ---------------------------------------------------------------------
  // aggregate_metrics
  // ---------------------------------------------------------------------

  /** The fields of a result row that the metrics read; an absent "tokens" reads as 0. */
  datatype TaskResult = TaskResult(status: string, tokens: int)

  /** The integer metrics; `tokens_mean` and the time metrics are floating point and left out. */
  datatype Metrics = Metrics(totalTasks: nat, completed: nat, timeouts: nat, errors: nat, failed: nat,
                             tokensMedian: int, tokensTotal: int)

  function CountStatus(results: seq<TaskResult>, status: string): (n: nat)
    ensures n <= |results|
  {
    if results == [] then 0
    else (if results[0].status == status then 1 else 0) + CountStatus(results[1..], status)
  }

  /** The positive token counts of the completed rows, in order. */
  function CompletedTokens(results: seq<TaskResult>): (t: seq<int>)
    ensures forall i :: 0 <= i < |t| ==> t[i] > 0
  {
    if results == [] then []
    else
      var head := if results[0].status == "completed" && results[0].tokens > 0 then [results[0].tokens] else [];
      head + CompletedTokens(results[1..])
  }

  function Sum(xs: seq<int>): int {
    if xs == [] then 0 else xs[0] + Sum(xs[1..])
  }

  predicate Sorted(xs: seq<int>) {
    forall i, j :: 0 <= i < j < |xs| ==> xs[i] <= xs[j]
  }

  /** `x` placed before the first larger element of `xs`. */
  function Insert(x: int, xs: seq<int>): (r: seq<int>)
    ensures |r| == |xs| + 1 && multiset(r) == multiset(xs) + multiset{x}
  {
    if xs == [] || x <= xs[0] then [x] + xs
    else
      assert xs == [xs[0]] + xs[1..];
      [xs[0]] + Insert(x, xs[1..])
  }

  /** `sorted(xs)`. */
  function SortInts(xs: seq<int>): (r: seq<int>)
    ensures |r| == |xs| && multiset(r) == multiset(xs)
  {
    if xs == [] then []
    else
      assert xs == [xs[0]] + xs[1..];
      Insert(xs[0], SortInts(xs[1..]))
  }

  lemma {:induction false} InsertSorted(x: int, xs: seq<int>)
    requires Sorted(xs)
    ensures Sorted(Insert(x, xs))
  {
    if xs != [] && x > xs[0] {
      InsertSorted(x, xs[1..]);
      InsertLowerBound(x, xs[1..], xs[0]);
      var r := Insert(x, xs);
      var t := Insert(x, xs[1..]);
      assert r == [xs[0]] + t;
      forall i, j | 0 <= i < j < |r| ensures r[i] <= r[j] {
        assert r[j] == t[j - 1];
        if i > 0 {
          assert r[i] == t[i - 1];
        }
      }
    }
  }

  /** Inserting keeps a lower bound that `x` and every element of `xs` respect. */
  lemma {:induction false} InsertLowerBound(x: int, xs: seq<int>, lo: int)
    requires lo <= x && forall i :: 0 <= i < |xs| ==> lo <= xs[i]
    ensures forall k :: 0 <= k < |Insert(x, xs)| ==> lo <= Insert(x, xs)[k]
    decreases |xs|
  {
    if xs != [] && x > xs[0] {
      InsertLowerBound(x, xs[1..], lo);
      var r := Insert(x, xs);
      var t := Insert(x, xs[1..]);
      assert r == [xs[0]] + t;
      forall k | 0 < k < |r| ensures lo <= r[k] {
        assert r[k] == t[k - 1];
      }
    }
  }

  lemma {:induction false} SortIntsSorted(xs: seq<int>)
    ensures Sorted(SortInts(xs))
  {
    if xs != [] {
      SortIntsSorted(xs[1..]);
      InsertSorted(xs[0], SortInts(xs[1..]));
    }
  }

  /** `aggregate_metrics` without its floating-point entries. */
  function AggregateMetrics(results: seq<TaskResult>): (m: Metrics)
  {
    var tokens := CompletedTokens(results);
    Metrics(|results|, CountStatus(results, "completed"), CountStatus(results, "timeout"),
            CountStatus(results, "error"), CountStatus(results, "failed"),
            if tokens != [] then SortInts(tokens)[|tokens| / 2] else 0,
            Sum(tokens))
  }

  /** No results: every count, the median and the total are 0. */
  lemma EmptyMetrics()
    ensures AggregateMetrics([]) == Metrics(0, 0, 0, 0, 0, 0, 0)
  {
  }

  /** The four status counts never exceed the number of rows ("dry-run" and others count only there). */
  lemma {:induction false} StatusCountsWithinTotal(results: seq<TaskResult>)
    ensures var m := AggregateMetrics(results);
      m.completed + m.timeouts + m.errors + m.failed <= m.totalTasks
  {
    CountsBound(results);
  }

  lemma {:induction false} CountsBound(results: seq<TaskResult>)
    ensures CountStatus(results, "completed") + CountStatus(results, "timeout")
      + CountStatus(results, "error") + CountStatus(results, "failed") <= |results|
  {
    if results != [] {
      CountsBound(results[1..]);
    }
  }

  /** How many elements of `xs` lie below `v`, and above it. */
  function CountBelow(xs: seq<int>, v: int): (n: nat)
    ensures n <= |xs|
  {
    if xs == [] then 0 else (if xs[0] < v then 1 else 0) + CountBelow(xs[1..], v)
  }

  function CountAbove(xs: seq<int>, v: int): (n: nat)
    ensures n <= |xs|
  {
    if xs == [] then 0 else (if xs[0] > v then 1 else 0) + CountAbove(xs[1..], v)
  }

  lemma {:induction false} CountsOfInsert(x: int, xs: seq<int>, v: int)
    ensures CountBelow(Insert(x, xs), v) == CountBelow([x] + xs, v)
    ensures CountAbove(Insert(x, xs), v) == CountAbove([x] + xs, v)
  {
    if xs != [] && x > xs[0] {
      CountsOfInsert(x, xs[1..], v);
      assert ([x] + xs)[1..] == xs;
      assert (Insert(x, xs))[1..] == Insert(x, xs[1..]);
      assert ([x] + xs[1..])[1..] == xs[1..];
      assert xs[1..] == xs[1..];
    }
  }

  lemma {:induction false} CountsOfSort(xs: seq<int>, v: int)
    ensures CountBelow(SortInts(xs), v) == CountBelow(xs, v)
    ensures CountAbove(SortInts(xs), v) == CountAbove(xs, v)
  {
    if xs != [] {
      CountsOfSort(xs[1..], v);
      CountsOfInsert(xs[0], SortInts(xs[1..]), v);
      assert ([xs[0]] + SortInts(xs[1..]))[1..] == SortInts(xs[1..]);
    }
  }

  /** In a sorted list, fewer than `m` elements lie below `xs[m]`, and fewer than `|xs| - m` above it. */
  lemma {:induction false} SortedCounts(xs: seq<int>, m: nat)
    requires Sorted(xs) && m < |xs|
    ensures CountBelow(xs, xs[m]) <= m
    ensures CountAbove(xs, xs[m]) <= |xs| - m - 1
  {
    if m > 0 {
      assert Sorted(xs[1..]);
      assert xs[1..][m - 1] == xs[m];
      SortedCounts(xs[1..], m - 1);
    } else {
      NoneBelow(xs[1..], xs[0]);
    }
  }

  lemma {:induction false} NoneBelow(xs: seq<int>, v: int)
    requires forall i :: 0 <= i < |xs| ==> xs[i] >= v
    ensures CountBelow(xs, v) == 0
  {
    if xs != [] {
      NoneBelow(xs[1..], v);
    }
  }

  /**
   * `tokens_median` is the upper median of the positive completed token
   * counts: one of them, with at most half the list below it and at most
   * the rest above it; 0 when there is none.
   */
  lemma MedianSpec(results: seq<TaskResult>)
    ensures var t := CompletedTokens(results); var med := AggregateMetrics(results).tokensMedian;
      && (t == [] ==> med == 0)
      && (t != [] ==> med in t && CountBelow(t, med) <= |t| / 2 && CountAbove(t, med) <= |t| - |t| / 2 - 1)
  {
    var t := CompletedTokens(results);
    if t != [] {
      var sorted := SortInts(t);
      var m := |t| / 2;
      assert sorted[m] in multiset(t) by {
        assert sorted[m] in multiset(sorted);
      }
      SortIntsSorted(t);
      SortedCounts(sorted, m);
      CountsOfSort(t, sorted[m]);
    }
  }

  /** The total is the sum of the positive completed counts, so no smaller than any of them. */
  lemma {:induction false} TotalCoversEach(xs: seq<int>, k: nat)
    requires k < |xs| && forall i :: 0 <= i < |xs| ==> xs[i] > 0
    ensures xs[k] <= Sum(xs)
  {
    if k > 0 {
      TotalCoversEach(xs[1..], k - 1);
    } else {
      SumPositive(xs[1..]);
    }
  }

  lemma {:induction false} SumPositive(xs: seq<int>)
    requires forall i :: 0 <= i < |xs| ==> xs[i] > 0
    ensures Sum(xs) >= 0
  {
    if xs != [] {
      SumPositive(xs[1..]);
    }
  }

  /** The median never exceeds the total, and both are 0 or positive together. */
  lemma MedianWithinTotal(results: seq<TaskResult>)
    ensures var m := AggregateMetrics(results);
      && 0 <= m.tokensMedian <= m.tokensTotal
      && (m.tokensTotal == 0 <==> m.tokensMedian == 0)
  {
    var t := CompletedTokens(results);
    MedianSpec(results);
    SumPositive(t);
    if t != [] {
      var med := AggregateMetrics(results).tokensMedian;
      var k :| 0 <= k < |t| && t[k] == med;
      TotalCoversEach(t, k);
    }
  }

  /** Only completed rows with tokens contribute: a failed row with tokens does not. */
  lemma MixedStatuses()
    ensures AggregateMetrics([TaskResult("completed", 100), TaskResult("failed", 50)]) == Metrics(2, 1, 0, 0, 1, 100, 100)
  {
    var rs := [TaskResult("completed", 100), TaskResult("failed", 50)];
    assert rs[1..] == [TaskResult("failed", 50)];
    assert CompletedTokens(rs) == [100];
  }

  /** Three completed rows of 100, 200 and 300 tokens have median 200 and total 600. */
  lemma OddMedian()
    ensures var m := AggregateMetrics([TaskResult("completed", 100), TaskResult("completed", 200), TaskResult("completed", 300)]);
      m.tokensMedian == 200 && m.tokensTotal == 600
  {
    var rs := [TaskResult("completed", 100), TaskResult("completed", 200), TaskResult("completed", 300)];
    assert rs[1..] == [TaskResult("completed", 200), TaskResult("completed", 300)];
    assert rs[1..][1..] == [TaskResult("completed", 300)];
    assert CompletedTokens(rs) == [100, 200, 300];
    assert SortInts([300]) == [300];
    assert [200, 300][1..] == [300];
    assert SortInts([200, 300]) == [200, 300];
    assert [100, 200, 300][1..] == [200, 300];
    assert SortInts([100, 200, 300]) == [100, 200, 300];
  }
}
