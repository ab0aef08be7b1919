/**
 * Worker slots of the polling server (`python/agentize/server/workers.py`,
 * duplicated in `python/agentize/server/__main__.py`).
 *
 * The slot directory is a map from slot id to the text of its
 * `worker-<id>.status` file (absent when there is no file).  A record is
 * replaced as a whole, as the temp-file-and-rename write does.  The
 * by-issue session index is the set of issues that still have an index
 * file.  The `os.kill(pid, 0)` probe, the session lookup and the Telegram
 * send are oracles.
 */
module WorkerSlots {
  import opened Wrappers
  import opened Text

  /** The dict `read_worker_status` returns: `state` always, `issue` and `pid` when present. */
  datatype WorkerStatus = WorkerStatus(state: string, issue: Option<int>, pid: Option<int>)

  const FreeStatus := WorkerStatus("FREE", None, None)

  // ---------------------------------------------------------------------
  // The record codec
  // ---------------------------------------------------------------------

  /** The lines `write_worker_status` joins: state, then issue and pid when not None. */
  function RecordLines(st: WorkerStatus): seq<string> {
    ["state=" + st.state]
    + (if st.issue.Some? then ["issue=" + IntToDecimal(st.issue.value)] else [])
    + (if st.pid.Some? then ["pid=" + IntToDecimal(st.pid.value)] else [])
  }

  /** `'\n'.join(lines) + '\n'`. */
  function EncodeStatus(st: WorkerStatus): string {
    Join(RecordLines(st), "\n") + "\n"
  }

  /**
   * One line of `read_worker_status`: stripped, split at its first `=`;
   * `state` takes the value as it is, `issue` and `pid` only when `int()`
   * accepts it; other lines change nothing.
   */
  function ApplyLine(acc: WorkerStatus, line: string): WorkerStatus {
    var l := PyStrip(line);
    match IndexOf(l, '=')
    case None => acc
    case Some(k) =>
      var key := l[..k];
      var value := l[k + 1..];
      if key == "state" then acc.(state := value)
      else if key == "issue" then (match ParsePyInt(value) case Some(n) => acc.(issue := Some(n)) case None => acc)
      else if key == "pid" then (match ParsePyInt(value) case Some(n) => acc.(pid := Some(n)) case None => acc)
      else acc
  }

  function ApplyLines(acc: WorkerStatus, lines: seq<string>): WorkerStatus
    decreases |lines|
  {
    if |lines| == 0 then acc else ApplyLines(ApplyLine(acc, lines[0]), lines[1..])
  }

  /** `read_worker_status` on a file's text, or on a missing file. */
  function ParseStatus(file: Option<string>): WorkerStatus {
    match file
    case None => FreeStatus
    case Some(text) => ApplyLines(FreeStatus, FileLines(text))
  }

  lemma {:induction false} ApplyLinesAppend(acc: WorkerStatus, a: seq<string>, b: seq<string>)
    ensures ApplyLines(acc, a + b) == ApplyLines(ApplyLines(acc, a), b)
    decreases |a|
  {
    if |a| > 0 {
      assert (a + b)[0] == a[0];
      assert (a + b)[1..] == a[1..] + b;
      ApplyLinesAppend(ApplyLine(acc, a[0]), a[1..], b);
    } else {
      assert a + b == b;
    }
  }

  /** A state with no line break and no trailing whitespace survives the write. */
  predicate StorableState(state: string) {
    '\n' !in state && '\r' !in state && (|state| == 0 || !IsPySpace(state[|state| - 1]))
  }

  lemma KeyValueStrip(key: string, value: string)
    requires |key| > 0 && !IsPySpace(key[0])
    requires |value| > 0 ==> !IsPySpace(value[|value| - 1])
    ensures PyStrip(key + "=" + value) == key + "=" + value
  {
    var l := key + "=" + value;
    assert l[0] == key[0];
    if |value| > 0 {
      assert l[|l| - 1] == value[|value| - 1];
    } else {
      assert l[|l| - 1] == '=';
    }
    NoEdgesStrip(l);
  }

  lemma KeyValueSplit(key: string, value: string)
    requires '=' !in key
    ensures IndexOf(key + "=" + value, '=') == Some(|key|)
    ensures (key + "=" + value)[..|key|] == key && (key + "=" + value)[|key| + 1..] == value
  {
    IndexOfAfter(key, value, '=');
  }

  /** A `key=value` line with no blank at either end is split at the `=` after the key. */
  lemma KeyValueLine(key: string, value: string)
    requires |key| > 0 && !IsPySpace(key[0]) && '=' !in key
    requires |value| > 0 ==> !IsPySpace(value[|value| - 1])
    ensures PyStrip(key + "=" + value) == key + "=" + value
    ensures IndexOf(key + "=" + value, '=') == Some(|key|)
    ensures (key + "=" + value)[..|key|] == key && (key + "=" + value)[|key| + 1..] == value
  {
    KeyValueStrip(key, value);
    KeyValueSplit(key, value);
  }

  lemma StateLineSets(acc: WorkerStatus, state: string)
    requires StorableState(state)
    ensures ApplyLine(acc, "state=" + state) == acc.(state := state)
  {
    KeyValueLine("state", state);
    assert "state=" + state == "state" + "=" + state;
  }

  lemma IssueLineSets(acc: WorkerStatus, n: int)
    ensures ApplyLine(acc, "issue=" + IntToDecimal(n)) == acc.(issue := Some(n))
  {
    var d := IntToDecimal(n);
    assert !IsPySpace(d[|d| - 1]);
    assert "issue=" + d == "issue" + "=" + d;
    KeyValueLine("issue", d);
    IntDecimalRoundTrip(n);
  }

  lemma PidLineSets(acc: WorkerStatus, n: int)
    ensures ApplyLine(acc, "pid=" + IntToDecimal(n)) == acc.(pid := Some(n))
  {
    var d := IntToDecimal(n);
    assert !IsPySpace(d[|d| - 1]);
    assert "pid=" + d == "pid" + "=" + d;
    KeyValueLine("pid", d);
    IntDecimalRoundTrip(n);
  }

  lemma {:induction false} RecordHasNoBreaks(st: WorkerStatus)
    requires StorableState(st.state)
    ensures forall i :: 0 <= i < |RecordLines(st)| ==> '\n' !in RecordLines(st)[i] && '\r' !in RecordLines(st)[i]
    ensures '\r' !in EncodeStatus(st)
  {
    var lines := RecordLines(st);
    forall i | 0 <= i < |lines|
      ensures '\n' !in lines[i] && '\r' !in lines[i]
    {
      if i > 0 {
        var d := if i == 1 && st.issue.Some? then IntToDecimal(st.issue.value) else IntToDecimal(st.pid.value);
        assert forall k :: 0 <= k < |d| ==> d[k] != '\n' && d[k] != '\r';
      }
    }
    JoinNoChar(lines, '\n', '\r');
  }

  lemma {:induction false} JoinNoChar(lines: seq<string>, sep: char, c: char)
    requires sep != c
    requires forall i :: 0 <= i < |lines| ==> c !in lines[i]
    ensures c !in Join(lines, [sep]) + [sep]
    decreases |lines|
  {
    if |lines| > 1 {
      JoinNoChar(lines[1..], sep, c);
      assert Join(lines, [sep]) + [sep] == lines[0] + [sep] + (Join(lines[1..], [sep]) + [sep]);
    }
  }

  /**
   * Reading a record back gives what was written: the state, and issue and
   * pid exactly when they were given.
   */
  lemma StatusRoundTrip(st: WorkerStatus)
    requires StorableState(st.state)
    ensures ParseStatus(Some(EncodeStatus(st))) == st
  {
    RecordHasNoBreaks(st);
    var lines := RecordLines(st);
    assert FileLines(EncodeStatus(st)) == lines + [""] by {
      SplitTerminatedJoin(lines, '\n');
    }
    var a := ["state=" + st.state];
    var b := if st.issue.Some? then ["issue=" + IntToDecimal(st.issue.value)] else [];
    var c := if st.pid.Some? then ["pid=" + IntToDecimal(st.pid.value)] else [];
    assert lines + [""] == a + (b + (c + [""]));
    ApplyLinesAppend(FreeStatus, a, b + (c + [""]));
    StateLineSets(FreeStatus, st.state);
    var s1 := FreeStatus.(state := st.state);
    ApplyLinesAppend(s1, b, c + [""]);
    if st.issue.Some? { IssueLineSets(s1, st.issue.value); }
    var s2 := s1.(issue := st.issue);
    ApplyLinesAppend(s2, c, [""]);
    if st.pid.Some? { PidLineSets(s2, st.pid.value); }
    assert ApplyLine(st, "") == st;
  }

  /** A line without `=`, or with a key other than state, issue and pid, changes nothing. */
  lemma OtherLinesIgnored(acc: WorkerStatus, line: string)
    requires '=' !in PyStrip(line)
      || (IndexOf(PyStrip(line), '=').Some?
          && PyStrip(line)[..IndexOf(PyStrip(line), '=').value] !in {"state", "issue", "pid"})
    ensures ApplyLine(acc, line) == acc
  {
  }

  /** An issue or pid value that `int()` rejects is dropped, keeping any earlier value. */
  lemma MalformedNumberDropped(acc: WorkerStatus, key: string, value: string)
    requires key == "issue" || key == "pid"
    requires '=' !in key && ParsePyInt(value) == None
    requires PyStrip(key + "=" + value) == key + "=" + value
    ensures ApplyLine(acc, key + "=" + value) == acc
  {
    var l := key + "=" + value;
    IndexOfAfter(key, value, '=');
    assert l[..|key|] == key && l[|key| + 1..] == value;
  }

  /** The last state line wins. */
  lemma LastStateWins(acc: WorkerStatus, lines: seq<string>, state: string)
    requires StorableState(state)
    ensures ApplyLines(acc, lines + ["state=" + state]).state == state
  {
    ApplyLinesAppend(acc, lines, ["state=" + state]);
    StateLineSets(ApplyLines(acc, lines), state);
  }

  /** A missing or empty file reads as FREE. */
  lemma EmptyReadsFree()
    ensures ParseStatus(None) == FreeStatus
    ensures ParseStatus(Some("")) == FreeStatus
  {
    assert FileLines("") == [""];
  }

  // ---------------------------------------------------------------------
  // Slot queries over the directory
  // ---------------------------------------------------------------------

  function StatusIn(files: map<int, string>, i: int): WorkerStatus {
    ParseStatus(if i in files then Some(files[i]) else None)
  }

  /** `check_worker_liveness`: dead only when BUSY with a recorded pid whose probe fails. */
  predicate LiveIn(files: map<int, string>, i: int, alive: int -> bool) {
    var st := StatusIn(files, i);
    st.state != "BUSY" || st.pid.None? || alive(st.pid.value)
  }

  /** The first slot in `[from, n)` whose state is exactly FREE. */
  function FirstFreeFrom(files: map<int, string>, n: int, from: int): (r: Option<int>)
    requires 0 <= from
    ensures r.Some? ==> (from <= r.value < n && StatusIn(files, r.value).state == "FREE"
                         && forall j :: from <= j < r.value ==> StatusIn(files, j).state != "FREE")
    ensures r.None? <==> forall j :: from <= j < n ==> StatusIn(files, j).state != "FREE"
    decreases n - from
  {
    if from >= n then None
    else if StatusIn(files, from).state == "FREE" then Some(from)
    else FirstFreeFrom(files, n, from + 1)
  }

  function FirstFree(files: map<int, string>, n: int): Option<int> {
    FirstFreeFrom(files, n, 0)
  }

  /** A slot that is BUSY without a pid is live whatever the probe says, so cleanup never frees it. */
  lemma BusyWithoutPidIsLive(files: map<int, string>, i: int, alive: int -> bool)
    requires StatusIn(files, i).state == "BUSY" && StatusIn(files, i).pid.None?
    ensures LiveIn(files, i, alive)
  {
  }

  /** A slot without a file is FREE and live. */
  lemma MissingSlotIsFree(files: map<int, string>, i: int, alive: int -> bool)
    requires i !in files
    ensures StatusIn(files, i) == FreeStatus && LiveIn(files, i, alive)
  {
  }

  /** The record `write_worker_status(i, 'FREE', None, None)` leaves. */
  function FreeRecord(): string {
    EncodeStatus(FreeStatus)
  }

  /** After `cleanup_dead_workers`: every non-live slot below `n` holds a FREE record. */
  function Cleaned(files: map<int, string>, n: int, alive: int -> bool): map<int, string> {
    map i | i in files :: if 0 <= i < n && !LiveIn(files, i, alive) then FreeRecord() else files[i]
  }

  lemma CleanedAbove(files: map<int, string>, k: int, alive: int -> bool, i: int)
    requires k <= i
    ensures StatusIn(Cleaned(files, k, alive), i) == StatusIn(files, i)
  {
    if i in files {
      assert Cleaned(files, k, alive)[i] == files[i];
    }
  }

  lemma CleanedNothing(files: map<int, string>, n: int, alive: int -> bool)
    requires n <= 0
    ensures Cleaned(files, n, alive) == files == Cleaned(files, 0, alive)
  {
  }

  /** Freeing one more dead slot extends the cleaned prefix by one. */
  lemma CleanedStepDead(files: map<int, string>, i: int, alive: int -> bool)
    requires 0 <= i && !LiveIn(files, i, alive)
    ensures Cleaned(files, i, alive)[i := FreeRecord()] == Cleaned(files, i + 1, alive)
  {
    var a := Cleaned(files, i, alive)[i := FreeRecord()];
    var b := Cleaned(files, i + 1, alive);
    assert i in files;
    forall j | j in files
      ensures a[j] == b[j]
    {
      if j != i {
        assert (0 <= j < i) == (0 <= j < i + 1);
      }
    }
  }

  /** A live slot is skipped. */
  lemma CleanedStepLive(files: map<int, string>, i: int, alive: int -> bool)
    requires 0 <= i && LiveIn(files, i, alive)
    ensures Cleaned(files, i, alive) == Cleaned(files, i + 1, alive)
  {
    forall j | j in files
      ensures Cleaned(files, i, alive)[j] == Cleaned(files, i + 1, alive)[j]
    {
      if j != i {
        assert (0 <= j < i) == (0 <= j < i + 1);
      }
    }
  }

  /** The completion notification is attempted and succeeds for the dead slot's record. */
  predicate Notified(st: WorkerStatus, index: set<int>, notify: bool, sessionDone: int -> bool, sent: int -> bool) {
    notify && st.issue.Some? && st.issue.value != 0
    // the session lookup goes through the by-issue index first
    && st.issue.value in index && sessionDone(st.issue.value)
    && sent(st.issue.value)
  }

  /** The by-issue index after cleanup has visited slots `0 .. k-1`. */
  function IndexAfter(files: map<int, string>, index: set<int>, k: int, alive: int -> bool,
                      notify: bool, sessionDone: int -> bool, sent: int -> bool): set<int>
    decreases k
  {
    if k <= 0 then index
    else
      var before := IndexAfter(files, index, k - 1, alive, notify, sessionDone, sent);
      var st := StatusIn(files, k - 1);
      if !LiveIn(files, k - 1, alive) && Notified(st, before, notify, sessionDone, sent)
      then before - {st.issue.value}
      else before
  }

  /** Visiting slot `i` removes its issue from the index only when the slot is dead and notified. */
  lemma IndexAfterStep(files: map<int, string>, index: set<int>, i: int, alive: int -> bool,
                       notify: bool, sessionDone: int -> bool, sent: int -> bool)
    requires 0 <= i
    ensures var before := IndexAfter(files, index, i, alive, notify, sessionDone, sent);
      var st := StatusIn(files, i);
      IndexAfter(files, index, i + 1, alive, notify, sessionDone, sent)
        == if !LiveIn(files, i, alive) && Notified(st, before, notify, sessionDone, sent)
           then before - {st.issue.value} else before
  {
  }

  /**
   * An index entry disappears only for the issue of a dead slot, with the
   * credentials and session directory present, the session done and the
   * send successful.
   */
  lemma {:induction false} IndexRemovalNeedsAll(files: map<int, string>, index: set<int>, k: int, alive: int -> bool,
                                                notify: bool, sessionDone: int -> bool, sent: int -> bool, issue: int)
    requires issue in index && issue !in IndexAfter(files, index, k, alive, notify, sessionDone, sent)
    ensures notify && issue != 0 && sessionDone(issue) && sent(issue)
    ensures exists i :: 0 <= i < k && !LiveIn(files, i, alive) && StatusIn(files, i).issue == Some(issue)
    decreases k
  {
    var before := IndexAfter(files, index, k - 1, alive, notify, sessionDone, sent);
    if issue in before {
      assert StatusIn(files, k - 1).issue == Some(issue);
    } else {
      IndexRemovalNeedsAll(files, index, k - 1, alive, notify, sessionDone, sent, issue);
    }
  }

  lemma {:induction false} IndexOnlyShrinks(files: map<int, string>, index: set<int>, k: int, alive: int -> bool,
                                            notify: bool, sessionDone: int -> bool, sent: int -> bool)
    ensures IndexAfter(files, index, k, alive, notify, sessionDone, sent) <= index
    decreases k
  {
    if k > 0 {
      IndexOnlyShrinks(files, index, k - 1, alive, notify, sessionDone, sent);
    }
  }

  /** The slot ids `0 .. n-1`. */
  function SlotRange(n: int): (r: set<int>)
    ensures forall j :: j in r <==> 0 <= j < n
    decreases n
  {
    if n <= 0 then {} else SlotRange(n - 1) + {n - 1}
  }

  /** After `init_worker_status_files`: FREE records for missing slots and for files whose read raised. */
  function Initialized(files: map<int, string>, n: int, readFails: int -> bool): map<int, string> {
    map i | i in files.Keys + SlotRange(n) ::
      if 0 <= i < n && (i !in files || readFails(i)) then FreeRecord() else files[i]
  }

  /** Slot `i` joins the initialized range: it gets a FREE record exactly when missing or unreadable. */
  lemma InitializedStep(files: map<int, string>, i: int, readFails: int -> bool)
    requires 0 <= i
    ensures i in Initialized(files, i, readFails) <==> i in files
    ensures Initialized(files, i + 1, readFails) ==
      if i !in files || readFails(i) then Initialized(files, i, readFails)[i := FreeRecord()]
      else Initialized(files, i, readFails)
  {
    var a := Initialized(files, i, readFails);
    var b := Initialized(files, i + 1, readFails);
    assert SlotRange(i + 1) == SlotRange(i) + {i};
    if i !in files || readFails(i) {
      assert b == a[i := FreeRecord()];
    } else {
      assert b == a;
    }
  }

  lemma InitializedZero(files: map<int, string>, readFails: int -> bool)
    ensures Initialized(files, 0, readFails) == files
  {
    assert SlotRange(0) == {};
  }

  /** No slot below a non-positive bound, so initialization stops where it started. */
  lemma InitializedEmpty(files: map<int, string>, n: int, i: int, readFails: int -> bool)
    requires 0 <= i && (if n <= 0 then i == 0 else i == n)
    ensures Initialized(files, i, readFails) == Initialized(files, n, readFails)
  {
    if n <= 0 {
      assert SlotRange(n) == SlotRange(0);
    }
  }

  // ---------------------------------------------------------------------
  // PID parsing (_parse_pid_from_output)
  // ---------------------------------------------------------------------

  /** `re.search(r'PID[:\s]+(\d+)', line)` from position `j`: the number of the leftmost match. */
  function PidMatchFrom(line: string, j: nat): (r: Option<nat>)
    requires j <= |line|
    decreases |line| - j
  {
    match FindFrom(line, "PID", j)
    case None => None
    case Some(p) =>
      var sep := RunFrom(line, p + 3, ColonOrPySpace);
      var digits := RunFrom(line, p + 3 + sep, Digit);
      if sep > 0 && digits > 0 then
        assert AllDigits(line[p + 3 + sep..p + 3 + sep + digits]);
        Some(DigitsValue(line[p + 3 + sep..p + 3 + sep + digits]))
      else PidMatchFrom(line, p + 1)
  }

  function FirstPid(lines: seq<string>): Option<nat>
    decreases |lines|
  {
    if |lines| == 0 then None
    else match PidMatchFrom(lines[0], 0)
      case Some(pid) => Some(pid)
      case None => FirstPid(lines[1..])
  }

  /** `_parse_pid_from_output`. */
  function PidFromOutput(stdout: string): Option<nat> {
    FirstPid(SplitLines(stdout))
  }

  /** The loop of `_parse_pid_from_output`: the first line with a match decides. */
  method ParsePidFromOutput(stdout: string) returns (pid: Option<nat>)
    ensures pid == PidFromOutput(stdout)
  {
    var lines := SplitLines(stdout);
    var i := 0;
    while i < |lines|
      invariant 0 <= i <= |lines|
      invariant FirstPid(lines) == FirstPid(lines[i..])
    {
      var m := PidMatchFrom(lines[i], 0);
      if m.Some? {
        return m;
      }
      assert lines[i..][1..] == lines[i + 1..];
      i := i + 1;
    }
    return None;
  }

  /** Without "PID" in a line there is no match in it. */
  lemma NoMarkerNoPid(line: string, j: nat)
    requires j <= |line|
    requires forall p :: j <= p ==> !OccursAt(line, "PID", p)
    ensures PidMatchFrom(line, j) == None
  {
  }

  lemma SingleLine(line: string)
    requires forall k :: 0 <= k < |line| ==> !IsPyLineBreak(line[k])
    ensures SplitLines(line) == [line]
  {
    SpanExact(line, NotPyLineBreak, |line|);
  }

  lemma PidLineMatch(line: string, d: string)
    requires line == "PID: " + d && |d| > 0 && AllDigits(d)
    ensures PidMatchFrom(line, 0) == Some(DigitsValue(d))
  {
    assert OccursAt(line, "PID", 0);
    assert FindFrom(line, "PID", 0) == Some(0);
    RunFromExact(line, 3, ColonOrPySpace, 2);
    RunFromExact(line, 5, Digit, |d|);
    assert line[5..5 + |d|] == d;
  }

  /** The `wt` output line "PID: <n>" yields n. */
  lemma PidLineRoundTrip(n: nat)
    ensures PidFromOutput("PID: " + NatToDecimal(n)) == Some(n)
  {
    var d := NatToDecimal(n);
    var line := "PID: " + d;
    forall k | 0 <= k < |line| ensures !IsPyLineBreak(line[k]) {
      if k >= 5 { assert line[k] == d[k - 5]; }
    }
    SingleLine(line);
    PidLineMatch(line, d);
    NatDecimalRoundTrip(n);
  }

  // ---------------------------------------------------------------------
  // The slot directory
  // ---------------------------------------------------------------------

  class SlotDirectory {
    /** Text of `worker-<id>.status` by slot id. */
    var files: map<int, string>
    /** Issues that still have a `by-issue/<n>.json` index file. */
    var issueIndex: set<int>

    constructor (files0: map<int, string>, index0: set<int>)
      ensures files == files0 && issueIndex == index0
    {
      files := files0;
      issueIndex := index0;
    }

    /** `write_worker_status`: the record replaces the slot's file whole. */
    method WriteWorkerStatus(i: int, st: WorkerStatus)
      modifies this
      ensures files == old(files)[i := EncodeStatus(st)]
      ensures issueIndex == old(issueIndex)
    {
      files := files[i := EncodeStatus(st)];
    }

    /** `read_worker_status`: the file's lines folded into the record, starting from FREE. */
    method ReadWorkerStatus(i: int) returns (st: WorkerStatus)
      ensures st == StatusIn(files, i)
    {
      if i !in files {
        return FreeStatus;
      }
      var lines := FileLines(files[i]);
      st := FreeStatus;
      var k := 0;
      while k < |lines|
        invariant 0 <= k <= |lines|
        invariant ApplyLines(st, lines[k..]) == ApplyLines(FreeStatus, lines)
      {
        assert lines[k..][1..] == lines[k + 1..];
        st := ApplyLine(st, lines[k]);
        k := k + 1;
      }
    }

    /** `get_free_worker`: the smallest slot below `n` whose state is exactly FREE. */
    method GetFreeWorker(n: int) returns (w: Option<int>)
      ensures w == FirstFree(files, n)
    {
      var i := 0;
      while i < n
        invariant 0 <= i <= if n < 0 then 0 else n
        invariant FirstFree(files, n) == FirstFreeFrom(files, n, i)
      {
        var st := ReadWorkerStatus(i);
        if st.state == "FREE" {
          return Some(i);
        }
        i := i + 1;
      }
      return None;
    }

    /** `check_worker_liveness`. */
    method CheckWorkerLiveness(i: int, alive: int -> bool) returns (live: bool)
      ensures live == LiveIn(files, i, alive)
    {
      var st := ReadWorkerStatus(i);
      if st.state != "BUSY" {
        return true;
      }
      if st.pid.None? {
        return true;
      }
      live := alive(st.pid.value);
    }

    /**
     * `cleanup_dead_workers`: each dead slot below `n` is rewritten FREE;
     * its issue's index entry is removed when the completion notice went out.
     * `notify` stands for the token, chat id and session directory all being set.
     */
    method CleanupDeadWorkers(n: int, alive: int -> bool, notify: bool, sessionDone: int -> bool, sent: int -> bool)
      modifies this
      ensures files == Cleaned(old(files), n, alive)
      ensures issueIndex == IndexAfter(old(files), old(issueIndex), n, alive, notify, sessionDone, sent)
    {
      ghost var files0 := files;
      ghost var index0 := issueIndex;
      if n <= 0 {
        CleanedNothing(files0, n, alive);
        return;
      }
      var i := 0;
      while i < n
        invariant 0 <= i <= n
        invariant SweptTo(i, alive, notify, sessionDone, sent, files0, index0)
      {
        CleanupSlot(i, alive, notify, sessionDone, sent, files0, index0);
        i := i + 1;
      }
    }

    /** The slots below `i` have been swept, starting from `files0` and `index0`. */
    ghost predicate SweptTo(i: int, alive: int -> bool, notify: bool, sessionDone: int -> bool, sent: int -> bool,
                            files0: map<int, string>, index0: set<int>)
      reads this
    {
      && files == Cleaned(files0, i, alive)
      && issueIndex == IndexAfter(files0, index0, i, alive, notify, sessionDone, sent)
    }

    /** One pass of the loop of `cleanup_dead_workers`, over slot `i`. */
    method CleanupSlot(i: int, alive: int -> bool, notify: bool, sessionDone: int -> bool, sent: int -> bool,
                       ghost files0: map<int, string>, ghost index0: set<int>)
      requires 0 <= i && SweptTo(i, alive, notify, sessionDone, sent, files0, index0)
      modifies this
      ensures SweptTo(i + 1, alive, notify, sessionDone, sent, files0, index0)
    {
      CleanedAbove(files0, i, alive, i);
      IndexAfterStep(files0, index0, i, alive, notify, sessionDone, sent);
      var live := CheckWorkerLiveness(i, alive);
      if live {
        CleanedStepLive(files0, i, alive);
      } else {
        CleanedStepDead(files0, i, alive);
        var st := ReadWorkerStatus(i);
        ReleaseIssue(st, notify, sessionDone, sent);
        WriteWorkerStatus(i, FreeStatus);
      }
    }

    /** The notification branch of `cleanup_dead_workers` for one dead slot's record. */
    method ReleaseIssue(st: WorkerStatus, notify: bool, sessionDone: int -> bool, sent: int -> bool)
      modifies this
      ensures files == old(files)
      ensures issueIndex == if Notified(st, old(issueIndex), notify, sessionDone, sent)
                            then old(issueIndex) - {st.issue.value} else old(issueIndex)
    {
      if notify && st.issue.Some? && st.issue.value != 0 {
        var issue := st.issue.value;
        // _get_session_state_for_issue reads the by-issue index first
        if issue in issueIndex && sessionDone(issue) {
          if sent(issue) {
            issueIndex := issueIndex - {issue};
          }
        }
      }
    }

    /**
     * `init_worker_status_files`: a FREE record for every missing slot below
     * `n` and for every file whose read raised; readable files stay as they
     * are, since a read always yields a state.
     */
    method InitWorkerStatusFiles(n: int, readFails: int -> bool)
      modifies this
      ensures files == Initialized(old(files), n, readFails)
      ensures issueIndex == old(issueIndex)
    {
      ghost var files0 := files;
      InitializedZero(files0, readFails);
      var i := 0;
      while i < n
        invariant 0 <= i <= if n < 0 then 0 else n
        invariant files == Initialized(files0, i, readFails)
        invariant issueIndex == old(issueIndex)
      {
        InitializedStep(files0, i, readFails);
        if i !in files {
          WriteWorkerStatus(i, FreeStatus);
        } else if readFails(i) {
          WriteWorkerStatus(i, FreeStatus);
        }
        i := i + 1;
      }
      InitializedEmpty(files0, n, i, readFails);
    }
  }

  /** Cleanup leaves live slots untouched and frees exactly the dead ones below `n`. */
  lemma CleanupFreesExactlyDead(files: map<int, string>, n: int, alive: int -> bool, i: int)
    requires i in files
    ensures LiveIn(files, i, alive) || i < 0 || i >= n ==> Cleaned(files, n, alive)[i] == files[i]
    ensures 0 <= i < n && !LiveIn(files, i, alive) ==> StatusIn(Cleaned(files, n, alive), i) == FreeStatus
  {
    StatusRoundTrip(FreeStatus);
  }

  /** Initialisation keeps readable records and makes every slot below `n` exist. */
  lemma InitKeepsReadable(files: map<int, string>, n: int, readFails: int -> bool, i: int)
    ensures 0 <= i < n ==> i in Initialized(files, n, readFails)
    ensures i in files && !readFails(i) ==> Initialized(files, n, readFails)[i] == files[i]
    ensures 0 <= i < n && (i !in files || readFails(i)) ==> StatusIn(Initialized(files, n, readFails), i) == FreeStatus
  {
    StatusRoundTrip(FreeStatus);
  }
}
