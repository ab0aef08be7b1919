/**
 * The VS Code extension's plan-session store: an in-memory list of plan
 * sessions and a draft input, persisted to the workspace memento after
 * every change.  Sessions carry their logs, their terminal widgets and
 * their refinement runs; every log is kept to its last 1000 lines.
 *
 * Clock readings (`Date.now()`) and the random parts of new ids are
 * parameters.  The memento is the field `stored`.
 */
module SessionState {
  import opened Wrappers
  import opened Text

  const MaxLogLines: nat := 1000
  const SessionSchemaVersion: int := 2

  /** A session's, an implementation's or a refinement run's status. */
  datatype Status = Idle | Running | Success | Error

  datatype RefineRun = RefineRun(
    id: string, prompt: string, status: Status, logs: seq<string>,
    collapsed: bool, createdAt: int, updatedAt: int)

  /** A widget of a session; `kind` is its `type` ("terminal" for log widgets). */
  datatype Widget = Widget(id: string, kind: string, title: string, content: Option<seq<string>>, createdAt: int)

  /** The command a run was started with. */
  datatype RunCommand = PlanCommand | RefineCommand | ImplCommand

  /** `rerun`: what a failed run was and how it ended (`lastExitCode` None: null or absent). */
  datatype Rerun = Rerun(commandType: RunCommand, prompt: Option<string>, issueNumber: Option<string>,
                         lastExitCode: Option<int>, updatedAt: int)

  datatype PlanSession = PlanSession(
    id: string,
    title: string,
    collapsed: bool,
    status: Status,
    prompt: string,
    issueNumber: Option<string>,
    issueState: Option<string>,
    implStatus: Status,
    implLogs: seq<string>,
    implCollapsed: bool,
    refineRuns: seq<RefineRun>,
    logs: seq<string>,
    version: int,
    widgets: seq<Widget>,
    phase: string,
    activeTerminalHandle: Option<string>,
    planPath: Option<string>,
    prUrl: Option<string>,
    actionMode: Option<string>,
    rerun: Option<Rerun>,
    createdAt: int,
    updatedAt: int)

  datatype PlanState = PlanState(sessions: seq<PlanSession>, draftInput: string)

  // ---------------------------------------------------------------------
  // trimLogs and deriveTitle
  // ---------------------------------------------------------------------

  /** `trimLogs`: at most the last 1000 lines. */
  function TrimLogs(lines: seq<string>): seq<string> {
    if |lines| <= MaxLogLines then lines else lines[|lines| - MaxLogLines..]
  }

  /** The kept lines are the newest ones: a suffix of length `min(n, 1000)`. */
  lemma TrimLogsSpec(lines: seq<string>)
    ensures |TrimLogs(lines)| == if |lines| <= MaxLogLines then |lines| else MaxLogLines
    ensures TrimLogs(lines) == lines[|lines| - |TrimLogs(lines)|..]
    ensures |lines| <= MaxLogLines ==> TrimLogs(lines) == lines
  {
  }

  /** `s.replace(/\s+/g, ' ')`: every maximal run of whitespace becomes one space. */
  function CollapseWs(s: string): string
    decreases |s|
  {
    if s == [] then []
    else if IsJsSpace(s[0]) then " " + CollapseWs(s[Span(s, JsSpace)..])
    else [s[0]] + CollapseWs(s[1..])
  }

  /** No whitespace but single spaces. */
  predicate Collapsed(s: string) {
    forall i :: 0 <= i < |s| ==> SingleSpaceAt(s, i)
  }

  /** Whitespace at `i` is a space with no whitespace right after it. */
  predicate SingleSpaceAt(s: string, i: nat)
    requires i < |s|
  {
    IsJsSpace(s[i]) ==> s[i] == ' ' && (i + 1 == |s| || !IsJsSpace(s[i + 1]))
  }

  /** The characters of `s` that are not whitespace, in order. */
  function Visible(s: string): string {
    if s == [] then [] else (if IsJsSpace(s[0]) then [] else [s[0]]) + Visible(s[1..])
  }

  /** A run of whitespace contributes nothing visible. */
  lemma {:induction false} VisibleSkipsSpace(s: string, k: nat)
    requires k <= |s|
    requires forall i :: 0 <= i < k ==> IsJsSpace(s[i])
    ensures Visible(s) == Visible(s[k..])
    decreases k
  {
    if k > 0 {
      VisibleSkipsSpace(s[1..], k - 1);
      assert s[1..][k - 1..] == s[k..];
    }
  }

  /** Collapsing leaves no whitespace but single spaces and keeps every other character in order. */
  lemma {:induction false} CollapseWsSpec(s: string)
    ensures Collapsed(CollapseWs(s))
    ensures Visible(CollapseWs(s)) == Visible(s)
    ensures CollapseWs(s) == [] <==> s == []
    ensures s != [] ==> (CollapseWs(s)[0] == ' ' <==> IsJsSpace(s[0]))
    decreases |s|
  {
    if s != [] {
      if IsJsSpace(s[0]) {
        var n := Span(s, JsSpace);
        var rest := s[n..];
        CollapseWsSpec(rest);
        SpanChars(s, JsSpace);
        VisibleSkipsSpace(s, n);
        var c := CollapseWs(s);
        assert c == " " + CollapseWs(rest);
        assert rest != [] ==> !IsJsSpace(rest[0]);
        forall i | 0 <= i < |c| ensures SingleSpaceAt(c, i) {
          if i + 1 < |c| {
            assert c[i + 1] == CollapseWs(rest)[i];
            assert SingleSpaceAt(CollapseWs(rest), i);
          }
          if i > 0 {
            assert c[i] == CollapseWs(rest)[i - 1];
            assert SingleSpaceAt(CollapseWs(rest), i - 1);
          }
        }
        assert Visible(c) == Visible(CollapseWs(rest));
      } else {
        var rest := s[1..];
        CollapseWsSpec(rest);
        var c := CollapseWs(s);
        assert c == [s[0]] + CollapseWs(rest);
        forall i | 0 <= i < |c| ensures SingleSpaceAt(c, i) {
          if i > 0 {
            assert c[i] == CollapseWs(rest)[i - 1];
            assert SingleSpaceAt(CollapseWs(rest), i - 1);
            if i + 1 < |c| { assert c[i + 1] == CollapseWs(rest)[i]; }
          }
        }
        assert c[1..] == CollapseWs(rest);
      }
    }
  }

  /** Any piece of a collapsed string is collapsed. */
  lemma CollapsedSlice(s: string, a: nat, b: nat)
    requires Collapsed(s) && a <= b <= |s|
    ensures Collapsed(s[a..b])
  {
    var t := s[a..b];
    forall i | 0 <= i < |t| ensures SingleSpaceAt(t, i) {
      assert t[i] == s[a + i];
      assert SingleSpaceAt(s, a + i);
      if i + 1 < |t| { assert t[i + 1] == s[a + i + 1]; }
    }
  }

  /** `deriveTitle` on an already trimmed prompt. */
  function DeriveTitle(prompt: string): string {
    if prompt == "" then "New Plan"
    else
      var t := JsTrim(CollapseWs(prompt));
      if |t| <= 20 then t else t[..20] + "..."
  }

  /**
   * An empty prompt is titled "New Plan"; otherwise the title is the prompt
   * with whitespace collapsed and trimmed, cut to 20 characters plus "..."
   * when longer, so never more than 23 characters, with no whitespace but
   * single inner spaces.
   */
  lemma DeriveTitleSpec(prompt: string)
    ensures prompt == "" ==> DeriveTitle(prompt) == "New Plan"
    ensures prompt != "" ==>
      var t := JsTrim(CollapseWs(prompt));
      && Collapsed(t) && Visible(t) == Visible(prompt)
      && (t == [] || (t[0] != ' ' && t[|t| - 1] != ' '))
      && DeriveTitle(prompt) == (if |t| <= 20 then t else t[..20] + "...")
      && |DeriveTitle(prompt)| <= 23
  {
    if prompt != "" {
      var c := CollapseWs(prompt);
      var t := JsTrim(c);
      CollapseWsSpec(prompt);
      TrimCollapsed(c);
      assert Visible(t) == Visible(c) == Visible(prompt);
      assert DeriveTitle(prompt) == if |t| <= 20 then t else t[..20] + "...";
    }
  }

  /** Trimming a collapsed string keeps it collapsed and keeps what is visible; neither end is then a space. */
  lemma TrimCollapsed(c: string)
    requires Collapsed(c)
    ensures Collapsed(JsTrim(c)) && Visible(JsTrim(c)) == Visible(c)
    ensures JsTrim(c) == [] || (JsTrim(c)[0] != ' ' && JsTrim(c)[|JsTrim(c)| - 1] != ' ')
  {
    TrimCollapsedSlice(c);
    TrimVisible(c);
    StripByEdges(c, JsSpace);
  }

  /** Trimming a collapsed string leaves a collapsed string. */
  lemma TrimCollapsedSlice(c: string)
    requires Collapsed(c)
    ensures Collapsed(JsTrim(c))
  {
    var n := Span(c, JsSpace);
    var u := c[n..];
    var e := SpanEnd(u, JsSpace);
    assert JsTrim(c) == c[n..|c| - e];
    CollapsedSlice(c, n, |c| - e);
  }

  /** Trimming keeps what is visible. */
  lemma TrimVisible(c: string)
    ensures Visible(JsTrim(c)) == Visible(c)
  {
    var n := Span(c, JsSpace);
    var u := c[n..];
    var e := SpanEnd(u, JsSpace);
    SpanChars(c, JsSpace);
    VisibleSkipsSpace(c, n);
    SpanEndChars(u, JsSpace);
    VisibleTail(u, |u| - e);
  }

  /** Dropping a whitespace tail keeps what is visible. */
  lemma {:induction false} VisibleTail(s: string, k: nat)
    requires k <= |s|
    requires forall i :: k <= i < |s| ==> IsJsSpace(s[i])
    ensures Visible(s[..k]) == Visible(s)
    decreases k
  {
    if k > 0 {
      VisibleTail(s[1..], k - 1);
      assert s[1..][..k - 1] == s[..k][1..];
    } else {
      VisibleSkipsSpace(s, |s|);
    }
  }

  // ---------------------------------------------------------------------
  // derivePhase and migration
  // ---------------------------------------------------------------------

  /** Some refinement run of the session is running. */
  predicate RefineRunning(s: PlanSession) {
    exists k :: 0 <= k < |s.refineRuns| && s.refineRuns[k].status == Running
  }

  /** `derivePhase`: the implementation's status first, then refinement, then planning. */
  function DerivePhase(s: PlanSession): string {
    if s.implStatus == Running then "implementing"
    else if s.implStatus == Success || s.implStatus == Error then "completed"
    else if RefineRunning(s) then "refining"
    else if s.status == Running then "planning"
    else if s.status == Success || s.status == Error then "plan-completed"
    else "idle"
  }

  /** Each phase, characterised by the statuses alone: a running implementation outranks everything, a finished one outranks refinement and planning. */
  lemma DerivePhaseSpec(s: PlanSession)
    ensures DerivePhase(s) == "implementing" <==> s.implStatus == Running
    ensures DerivePhase(s) == "completed" <==> s.implStatus in {Success, Error}
    ensures DerivePhase(s) == "refining" <==> s.implStatus == Idle && RefineRunning(s)
    ensures DerivePhase(s) == "planning" <==> s.implStatus == Idle && !RefineRunning(s) && s.status == Running
    ensures DerivePhase(s) == "plan-completed" <==> s.implStatus == Idle && !RefineRunning(s) && s.status in {Success, Error}
    ensures DerivePhase(s) == "idle" <==> s.implStatus == Idle && !RefineRunning(s) && s.status == Idle
  {
  }

  /** The "Plan Log" terminal widget. */
  function TerminalWidget(id: string, content: seq<string>, now: int): Widget {
    Widget(id, "terminal", "Plan Log", Some(content), now)
  }

  /**
   * `migrateSession` to schema version 2: a session with logs but no
   * widgets gets a terminal widget holding its logs, which becomes the
   * active one; the phase is derived from the statuses.
   */
  function MigrateSession(s: PlanSession, widgetId: string, now: int): PlanSession {
    var makeWidget := s.widgets == [] && s.logs != [];
    s.(version := SessionSchemaVersion,
       widgets := if makeWidget then [TerminalWidget(widgetId, s.logs, now)] else s.widgets,
       phase := DerivePhase(s),
       activeTerminalHandle := if makeWidget then Some(widgetId) else s.activeTerminalHandle)
  }

  /** A migrated session is at the current version, its phase agrees with its statuses, and its logs are all shown in a widget. */
  lemma MigrateSessionSpec(s: PlanSession, widgetId: string, now: int)
    ensures var m := MigrateSession(s, widgetId, now);
      && m.version == SessionSchemaVersion
      && m.phase == DerivePhase(m)
      && m.logs == s.logs && m.status == s.status && m.implStatus == s.implStatus && m.refineRuns == s.refineRuns
      && (s.logs != [] ==> m.widgets != [])
      && (s.widgets == [] && s.logs != [] ==> m.activeTerminalHandle == Some(widgetId) && m.widgets[0].content == Some(s.logs))
      && (s.widgets != [] || s.logs == [] ==> m.widgets == s.widgets && m.activeTerminalHandle == s.activeTerminalHandle)
  {
    assert RefineRunning(MigrateSession(s, widgetId, now)) == RefineRunning(s);
  }

  /** `load`: the stored state with every session older than version 2 migrated, and whether any was. */
  function Load(stored: Option<PlanState>, widgetIds: nat -> string, now: int): (PlanState, bool) {
    match stored
    case None => (PlanState([], ""), false)
    case Some(st) =>
      var ss := st.sessions;
      (PlanState(seq(|ss|, k requires 0 <= k < |ss| =>
                   if ss[k].version < SessionSchemaVersion then MigrateSession(ss[k], widgetIds(k), now) else ss[k]),
                 st.draftInput),
       exists k :: 0 <= k < |ss| && ss[k].version < SessionSchemaVersion)
  }

  /** After loading every session is at version 2 or later, and loading the loaded state again changes nothing and migrates nothing. */
  lemma LoadSpec(stored: Option<PlanState>, widgetIds: nat -> string, now: int, again: nat -> string, later: int)
    ensures var st := Load(stored, widgetIds, now).0;
      && (forall k :: 0 <= k < |st.sessions| ==> st.sessions[k].version >= SessionSchemaVersion)
      && Load(Some(st), again, later) == (st, false)
    ensures stored.Some? ==> |Load(stored, widgetIds, now).0.sessions| == |stored.value.sessions|
    ensures Load(stored, widgetIds, now).1 <==>
      stored.Some? && exists k :: 0 <= k < |stored.value.sessions| && stored.value.sessions[k].version < SessionSchemaVersion
  {
    var st := Load(stored, widgetIds, now).0;
    var ss := st.sessions;
    forall k | 0 <= k < |ss| ensures ss[k].version >= SessionSchemaVersion {
      var ss0 := stored.value.sessions;
      if ss0[k].version < SessionSchemaVersion {
        assert ss[k] == MigrateSession(ss0[k], widgetIds(k), now);
      } else {
        assert ss[k] == ss0[k];
      }
    }
    var l := Load(Some(st), again, later).0;
    forall k | 0 <= k < |ss| ensures l.sessions[k] == ss[k] {
    }
    assert l.sessions == ss;
  }

  // ---------------------------------------------------------------------
  // Session edits
  // ---------------------------------------------------------------------

  /** `Partial<PlanSession>`: each field given or not; for an optional field, given as `undefined` is `Some(None)`.  `updatedAt` is always overwritten and is left out. */
  datatype SessionUpdate = SessionUpdate(
    id: Option<string>,
    title: Option<string>,
    collapsed: Option<bool>,
    status: Option<Status>,
    prompt: Option<string>,
    issueNumber: Option<Option<string>>,
    issueState: Option<Option<string>>,
    implStatus: Option<Status>,
    implLogs: Option<seq<string>>,
    implCollapsed: Option<bool>,
    refineRuns: Option<seq<RefineRun>>,
    logs: Option<seq<string>>,
    version: Option<int>,
    widgets: Option<seq<Widget>>,
    phase: Option<string>,
    activeTerminalHandle: Option<Option<string>>,
    planPath: Option<Option<string>>,
    prUrl: Option<Option<string>>,
    actionMode: Option<Option<string>>,
    rerun: Option<Option<Rerun>>,
    createdAt: Option<int>)

  /** `Object.assign(session, update, { updatedAt: now })`. */
  function ApplyUpdate(s: PlanSession, u: SessionUpdate, now: int): PlanSession {
    PlanSession(
      u.id.GetOr(s.id), u.title.GetOr(s.title), u.collapsed.GetOr(s.collapsed), u.status.GetOr(s.status),
      u.prompt.GetOr(s.prompt), u.issueNumber.GetOr(s.issueNumber), u.issueState.GetOr(s.issueState),
      u.implStatus.GetOr(s.implStatus), u.implLogs.GetOr(s.implLogs), u.implCollapsed.GetOr(s.implCollapsed),
      u.refineRuns.GetOr(s.refineRuns), u.logs.GetOr(s.logs), u.version.GetOr(s.version),
      u.widgets.GetOr(s.widgets), u.phase.GetOr(s.phase), u.activeTerminalHandle.GetOr(s.activeTerminalHandle),
      u.planPath.GetOr(s.planPath), u.prUrl.GetOr(s.prUrl), u.actionMode.GetOr(s.actionMode), u.rerun.GetOr(s.rerun),
      u.createdAt.GetOr(s.createdAt), now)
  }

  /** The update that gives no field. */
  const NoFields := SessionUpdate(None, None, None, None, None, None, None, None, None, None, None, None, None, None, None, None,
                                  None, None, None, None, None)

  /** `b` over `a`: the fields `b` gives, else those `a` gives. */
  function Over<T>(a: Option<T>, b: Option<T>): Option<T> {
    if b.Some? then b else a
  }

  function Merge(a: SessionUpdate, b: SessionUpdate): SessionUpdate {
    SessionUpdate(
      Over(a.id, b.id), Over(a.title, b.title), Over(a.collapsed, b.collapsed), Over(a.status, b.status),
      Over(a.prompt, b.prompt), Over(a.issueNumber, b.issueNumber), Over(a.issueState, b.issueState),
      Over(a.implStatus, b.implStatus), Over(a.implLogs, b.implLogs), Over(a.implCollapsed, b.implCollapsed),
      Over(a.refineRuns, b.refineRuns), Over(a.logs, b.logs), Over(a.version, b.version),
      Over(a.widgets, b.widgets), Over(a.phase, b.phase), Over(a.activeTerminalHandle, b.activeTerminalHandle),
      Over(a.planPath, b.planPath), Over(a.prUrl, b.prUrl), Over(a.actionMode, b.actionMode), Over(a.rerun, b.rerun),
      Over(a.createdAt, b.createdAt))
  }

  /**
   * An update overwrites only the fields it gives: with no fields it only
   * stamps the time, applying it twice is applying it once, and two updates
   * in a row are the merged update with the later one winning.
   */
  lemma ApplyUpdateSpec(s: PlanSession, u: SessionUpdate, v: SessionUpdate, t1: int, t2: int)
    ensures ApplyUpdate(s, NoFields, t1) == s.(updatedAt := t1)
    ensures ApplyUpdate(ApplyUpdate(s, u, t1), u, t1) == ApplyUpdate(s, u, t1)
    ensures ApplyUpdate(ApplyUpdate(s, u, t1), v, t2) == ApplyUpdate(s, Merge(u, v), t2)
  {
  }

  /** A handle that is set and non-empty (the source's truthiness test). */
  predicate HandleSet(h: Option<string>) { h.Some? && h.value != "" }

  /** A widget receiving lines when it is the terminal widget with the active handle. */
  function FeedWidget(w: Widget, handle: string, lines: seq<string>): Widget {
    if w.id != handle || w.kind != "terminal" then w
    else w.(content := Some(TrimLogs(w.content.GetOr([]) + lines)))
  }

  /**
   * `appendLinesToActiveWidget`: without an active handle a new terminal
   * widget is added and made active; then every terminal widget with the
   * active id receives the lines, its content trimmed to 1000.
   */
  function FeedActiveWidget(s: PlanSession, lines: seq<string>, newId: string, now: int): PlanSession {
    var noHandle := !HandleSet(s.activeTerminalHandle);
    var handle := if noHandle then newId else s.activeTerminalHandle.value;
    var ws := if noHandle then s.widgets + [TerminalWidget(newId, [], now)] else s.widgets;
    s.(widgets := seq(|ws|, k requires 0 <= k < |ws| => FeedWidget(ws[k], handle, lines)),
       activeTerminalHandle := Some(handle))
  }

  /** How a refinement run is edited. */
  datatype RunOp = RunLogs(lines: seq<string>) | RunStatus(status: Status) | RunToggle

  function ApplyRunOp(r: RefineRun, op: RunOp, now: int): RefineRun {
    match op
    case RunLogs(lines) => r.(logs := TrimLogs(r.logs + lines), updatedAt := now)
    case RunStatus(st) => r.(status := st, updatedAt := now)
    case RunToggle => r.(collapsed := !r.collapsed, updatedAt := now)
  }

  /** `runs.map(...)`: every run with `runId` is edited, the others are copied. */
  function MapRuns(runs: seq<RefineRun>, runId: string, op: RunOp, now: int): seq<RefineRun> {
    seq(|runs|, k requires 0 <= k < |runs| => if runs[k].id != runId then runs[k] else ApplyRunOp(runs[k], op, now))
  }

  /** The edits the store makes to the one session with a given id. */
  datatype SessionEdit =
    | Assign(update: SessionUpdate)
    | AppendSessionLogs(lines: seq<string>, widgetId: string)
    | AppendImplLogs(lines: seq<string>)
    | AddRefineRun(run: RefineRun)
    | EditRefineRun(runId: string, op: RunOp)
    | ToggleSessionCollapse
    | ToggleImplCollapse

  /** The session after an edit at time `now`. */
  function Apply(s: PlanSession, e: SessionEdit, now: int): PlanSession {
    match e
    case Assign(u) => ApplyUpdate(s, u, now)
    case AppendSessionLogs(lines, widgetId) =>
      FeedActiveWidget(s.(logs := TrimLogs(s.logs + lines)), lines, widgetId, now).(updatedAt := now)
    case AppendImplLogs(lines) => s.(implLogs := TrimLogs(s.implLogs + lines), updatedAt := now)
    case AddRefineRun(run) => s.(refineRuns := s.refineRuns + [run], updatedAt := now)
    case EditRefineRun(runId, op) => s.(refineRuns := MapRuns(s.refineRuns, runId, op, now), updatedAt := now)
    case ToggleSessionCollapse => s.(collapsed := !s.collapsed, updatedAt := now)
    case ToggleImplCollapse => s.(implCollapsed := !s.implCollapsed, updatedAt := now)
  }

  /** The first session with the id (`sessions.find`). */
  function FindIndex(ss: seq<PlanSession>, id: string): (r: Option<nat>)
    ensures r.Some? ==> r.value < |ss| && ss[r.value].id == id && forall j :: 0 <= j < r.value ==> ss[j].id != id
    ensures r.None? ==> forall j :: 0 <= j < |ss| ==> ss[j].id != id
  {
    if ss == [] then None
    else if ss[0].id == id then Some(0)
    else match FindIndex(ss[1..], id)
      case None => None
      case Some(k) => Some(k + 1)
  }

  /** The sessions after editing the one with `id`, and the copy returned (None: no such session). */
  function EditAt(ss: seq<PlanSession>, id: string, e: SessionEdit, now: int): (seq<PlanSession>, Option<PlanSession>) {
    match FindIndex(ss, id)
    case None => (ss, None)
    case Some(i) => (ss[i := Apply(ss[i], e, now)], Some(Apply(ss[i], e, now)))
  }

  /**
   * An edit of an unknown id changes nothing and returns nothing; otherwise
   * exactly the first session with the id is edited, in place, and its new
   * value is returned.
   */
  lemma EditAtSpec(ss: seq<PlanSession>, id: string, e: SessionEdit, now: int)
    ensures var (ss', r) := EditAt(ss, id, e, now);
      && |ss'| == |ss|
      && (r.None? <==> forall j :: 0 <= j < |ss| ==> ss[j].id != id)
      && (r.None? ==> ss' == ss)
      && (r.Some? ==> exists i :: 0 <= i < |ss| && ss[i].id == id && ss'[i] == r.value == Apply(ss[i], e, now)
                                 && (forall j :: 0 <= j < i ==> ss[j].id != id)
                                 && (forall j :: 0 <= j < |ss| && j != i ==> ss'[j] == ss[j]))
  {
    match FindIndex(ss, id)
    case None =>
    case Some(i) =>
  }

  /** Two toggles of the same flag restore it; only the time stamp differs. */
  lemma ToggleTwice(s: PlanSession, t1: int, t2: int)
    ensures Apply(Apply(s, ToggleSessionCollapse, t1), ToggleSessionCollapse, t2) == s.(updatedAt := t2)
    ensures Apply(Apply(s, ToggleImplCollapse, t1), ToggleImplCollapse, t2) == s.(updatedAt := t2)
    ensures Apply(s, ToggleSessionCollapse, t1).collapsed == !s.collapsed
  {
  }

  /** Two toggles through the store restore the session that was toggled, whatever its index. */
  lemma StoreToggleTwice(ss: seq<PlanSession>, id: string, t1: int, t2: int)
    ensures var once := EditAt(ss, id, ToggleSessionCollapse, t1).0;
      var twice := EditAt(once, id, ToggleSessionCollapse, t2).0;
      |twice| == |ss| && forall j :: 0 <= j < |ss| ==> twice[j].collapsed == ss[j].collapsed
  {
    match FindIndex(ss, id)
    case None =>
    case Some(i) =>
      var once := EditAt(ss, id, ToggleSessionCollapse, t1).0;
      assert once[i].id == id;
      assert forall j :: 0 <= j < i ==> once[j].id != id;
      assert FindIndex(once, id) == Some(i);
  }

  /**
   * Appending session logs keeps the last 1000 lines of old and new logs,
   * leaves a terminal widget active, and feeds that widget the lines; other
   * widgets are unchanged.  Without an active handle exactly one widget is
   * added.
   */
  lemma AppendSessionLogsSpec(s: PlanSession, lines: seq<string>, widgetId: string, now: int)
    ensures var s' := Apply(s, AppendSessionLogs(lines, widgetId), now);
      var handle := s'.activeTerminalHandle.value;
      && s'.logs == TrimLogs(s.logs + lines) && |s'.logs| <= MaxLogLines
      && s'.activeTerminalHandle.Some?
      && (HandleSet(s.activeTerminalHandle) ==> s'.activeTerminalHandle == s.activeTerminalHandle && |s'.widgets| == |s.widgets|)
      && (!HandleSet(s.activeTerminalHandle) ==>
            && handle == widgetId && |s'.widgets| == |s.widgets| + 1
            && s'.widgets[|s.widgets|] == TerminalWidget(widgetId, TrimLogs(lines), now))
      && (forall k :: 0 <= k < |s.widgets| ==>
            s'.widgets[k] == if s.widgets[k].id == handle && s.widgets[k].kind == "terminal"
                             then s.widgets[k].(content := Some(TrimLogs(s.widgets[k].content.GetOr([]) + lines)))
                             else s.widgets[k])
      && s'.refineRuns == s.refineRuns && s'.updatedAt == now
  {
    var s1 := s.(logs := TrimLogs(s.logs + lines));
    var noHandle := !HandleSet(s.activeTerminalHandle);
    var handle := if noHandle then widgetId else s.activeTerminalHandle.value;
    var w := TerminalWidget(widgetId, [], now);
    var ws := if noHandle then s.widgets + [w] else s.widgets;
    var s' := Apply(s, AppendSessionLogs(lines, widgetId), now);
    assert s'.widgets == seq(|ws|, k requires 0 <= k < |ws| => FeedWidget(ws[k], handle, lines));
    assert s'.activeTerminalHandle == Some(handle);
    forall k | 0 <= k < |s.widgets| ensures s'.widgets[k] == FeedWidget(s.widgets[k], handle, lines) {
      assert ws[k] == s.widgets[k];
    }
    if noHandle {
      assert [] + lines == lines;
      assert ws[|s.widgets|] == w;
      assert s'.widgets[|s.widgets|] == FeedWidget(w, handle, lines);
    }
  }

  /**
   * Editing refinement runs changes exactly the runs with that id: logs
   * gain the lines and keep the last 1000, a status is set, a collapse flag
   * flips; every other run and the session's other fields stay.
   */
  lemma EditRefineRunSpec(s: PlanSession, runId: string, op: RunOp, now: int)
    ensures var s' := Apply(s, EditRefineRun(runId, op), now);
      && |s'.refineRuns| == |s.refineRuns|
      && s'.logs == s.logs && s'.widgets == s.widgets && s'.status == s.status && s'.updatedAt == now
      && forall k :: 0 <= k < |s.refineRuns| ==>
           var r := s.refineRuns[k];
           var r' := s'.refineRuns[k];
           && (r.id != runId ==> r' == r)
           && (r.id == runId ==>
                 && r'.id == r.id && r'.prompt == r.prompt && r'.createdAt == r.createdAt && r'.updatedAt == now
                 && (op.RunLogs? ==> r'.logs == TrimLogs(r.logs + op.lines) && |r'.logs| <= MaxLogLines
                                     && r'.status == r.status && r'.collapsed == r.collapsed)
                 && (op.RunStatus? ==> r'.status == op.status && r'.logs == r.logs && r'.collapsed == r.collapsed)
                 && (op.RunToggle? ==> r'.collapsed == !r.collapsed && r'.logs == r.logs && r'.status == r.status))
  {
  }

  // ---------------------------------------------------------------------
  // createSession and deleteSession
  // ---------------------------------------------------------------------

  /** The session `createSession` makes from a prompt, its id and the time. */
  function NewSession(prompt: string, id: string, now: int): PlanSession {
    var trimmed := JsTrim(prompt);
    PlanSession(id, DeriveTitle(trimmed), false, Idle, trimmed, None, None, Idle, [], false, [], [],
                SessionSchemaVersion, [], "idle", None, None, None, None, None, now, now)
  }

  /** A new session is idle in every respect, its phase agrees with its statuses, and its title is never empty. */
  lemma NewSessionSpec(prompt: string, id: string, now: int)
    ensures var s := NewSession(prompt, id, now);
      && s.status == Idle && s.implStatus == Idle && s.phase == DerivePhase(s) == "idle"
      && s.version == SessionSchemaVersion && s.logs == [] && s.widgets == [] && s.refineRuns == []
      && s.prompt == JsTrim(prompt) && s.title != ""
      && s.createdAt == s.updatedAt == now
  {
    var t := JsTrim(prompt);
    if t != "" {
      DeriveTitleSpec(t);
      StripByEdges(prompt, JsSpace);
      CollapseWsSpec(t);
      var c := CollapseWs(t);
      assert c[0] != ' ' by { assert !IsJsSpace(t[0]); }
      assert Span(c, JsSpace) == 0;
      assert JsTrim(c) != [];
    }
  }

  /** `sessions.filter(item => item.id !== id)`. */
  function Without(ss: seq<PlanSession>, id: string): seq<PlanSession> {
    if ss == [] then [] else (if ss[0].id == id then [] else [ss[0]]) + Without(ss[1..], id)
  }

  /** Deleting removes every session with the id and nothing else. */
  lemma {:induction false} WithoutSpec(ss: seq<PlanSession>, id: string)
    ensures forall x :: x in Without(ss, id) ==> x in ss && x.id != id
    ensures forall x :: x in ss && x.id != id ==> x in Without(ss, id)
    ensures (forall j :: 0 <= j < |ss| ==> ss[j].id != id) ==> Without(ss, id) == ss
  {
    WithoutSubset(ss, id);
    WithoutKeeps(ss, id);
    if forall j :: 0 <= j < |ss| ==> ss[j].id != id {
      WithoutNoop(ss, id);
    }
  }

  lemma {:induction false} WithoutSubset(ss: seq<PlanSession>, id: string)
    ensures forall x :: x in Without(ss, id) ==> x in ss && x.id != id
    decreases |ss|
  {
    if ss != [] {
      WithoutSubset(ss[1..], id);
      assert forall x :: x in ss[1..] ==> x in ss;
    }
  }

  lemma {:induction false} WithoutKeeps(ss: seq<PlanSession>, id: string)
    ensures forall x :: x in ss && x.id != id ==> x in Without(ss, id)
    decreases |ss|
  {
    if ss != [] {
      WithoutKeeps(ss[1..], id);
      assert forall x :: x in ss ==> x == ss[0] || x in ss[1..];
    }
  }

  lemma {:induction false} WithoutNoop(ss: seq<PlanSession>, id: string)
    requires forall j :: 0 <= j < |ss| ==> ss[j].id != id
    ensures Without(ss, id) == ss
    decreases |ss|
  {
    if ss != [] {
      WithoutNoop(ss[1..], id);
      assert [ss[0]] + ss[1..] == ss;
    }
  }

  /** Deleting keeps the rest in order: it works piece by piece. */
  lemma {:induction false} WithoutAppend(ss: seq<PlanSession>, tail: seq<PlanSession>, id: string)
    ensures Without(ss + tail, id) == Without(ss, id) + Without(tail, id)
    decreases |ss|
  {
    if ss == [] {
      assert ss + tail == tail;
    } else {
      var head := if ss[0].id == id then [] else [ss[0]];
      WithoutAppend(ss[1..], tail, id);
      assert (ss + tail)[0] == ss[0];
      assert (ss + tail)[1..] == ss[1..] + tail;
      assert Without(ss + tail, id) == head + Without(ss[1..] + tail, id);
      ConcatAssoc(head, Without(ss[1..], id), Without(tail, id));
    }
  }

  /** The store: sessions and draft input, and the memento they are persisted to. */
  class SessionStore {
    var sessions: seq<PlanSession>
    var draftInput: string
    /** The value saved under the store's memento key. */
    var stored: Option<PlanState>

    function State(): PlanState
      reads this
    {
      PlanState(sessions, draftInput)
    }

    /** The constructor's `load`: persisting again only when some session was migrated. */
    constructor (memento: Option<PlanState>, widgetIds: nat -> string, now: int)
      ensures State() == Load(memento, widgetIds, now).0
      ensures stored == if Load(memento, widgetIds, now).1 then Some(State()) else memento
    {
      var loaded := Load(memento, widgetIds, now);
      sessions := loaded.0.sessions;
      draftInput := loaded.0.draftInput;
      stored := if loaded.1 then Some(loaded.0) else memento;
    }

    /** `getSession`: a copy of the first session with the id. */
    method GetSession(id: string) returns (r: Option<PlanSession>)
      ensures r.None? <==> forall j :: 0 <= j < |sessions| ==> sessions[j].id != id
      ensures r.Some? ==> r.value in sessions && r.value.id == id
      ensures r.Some? ==> exists k :: 0 <= k < |sessions| && r.value == sessions[k]
                            && (forall j :: 0 <= j < k ==> sessions[j].id != id)
    {
      var i := FindIndex(sessions, id);
      if i.None? {
        return None;
      }
      return Some(sessions[i.value]);
    }

    /** `createSession`: exactly one new session at the end. */
    method CreateSession(prompt: string, id: string, now: int) returns (session: PlanSession)
      modifies this
      ensures session == NewSession(prompt, id, now)
      ensures sessions == old(sessions) + [session] && draftInput == old(draftInput)
      ensures stored == Some(State())
    {
      session := NewSession(prompt, id, now);
      sessions := sessions + [session];
      stored := Some(State());
    }

    /** The common shape of the edit methods: find the session, edit it in place, persist, return a copy. */
    method Edit(id: string, e: SessionEdit, now: int) returns (r: Option<PlanSession>)
      modifies this
      ensures (sessions, r) == EditAt(old(sessions), id, e, now)
      ensures draftInput == old(draftInput)
      ensures stored == if r.None? then old(stored) else Some(State())
    {
      var i := FindIndex(sessions, id);
      if i.None? {
        return None;
      }
      var s := Apply(sessions[i.value], e, now);
      sessions := sessions[i.value := s];
      stored := Some(State());
      return Some(s);
    }

    method UpdateSession(id: string, update: SessionUpdate, now: int) returns (r: Option<PlanSession>)
      modifies this
      ensures (sessions, r) == EditAt(old(sessions), id, Assign(update), now)
      ensures draftInput == old(draftInput) && stored == if r.None? then old(stored) else Some(State())
    {
      r := Edit(id, Assign(update), now);
    }

    method AppendSessionLogs(id: string, lines: seq<string>, widgetId: string, now: int) returns (r: Option<PlanSession>)
      modifies this
      ensures (sessions, r) == EditAt(old(sessions), id, SessionEdit.AppendSessionLogs(lines, widgetId), now)
      ensures draftInput == old(draftInput) && stored == if r.None? then old(stored) else Some(State())
    {
      r := Edit(id, SessionEdit.AppendSessionLogs(lines, widgetId), now);
    }

    method AppendImplLogs(id: string, lines: seq<string>, now: int) returns (r: Option<PlanSession>)
      modifies this
      ensures (sessions, r) == EditAt(old(sessions), id, SessionEdit.AppendImplLogs(lines), now)
      ensures draftInput == old(draftInput) && stored == if r.None? then old(stored) else Some(State())
    {
      r := Edit(id, SessionEdit.AppendImplLogs(lines), now);
    }

    method AddRefineRun(id: string, run: RefineRun, now: int) returns (r: Option<PlanSession>)
      modifies this
      ensures (sessions, r) == EditAt(old(sessions), id, SessionEdit.AddRefineRun(run), now)
      ensures draftInput == old(draftInput) && stored == if r.None? then old(stored) else Some(State())
    {
      r := Edit(id, SessionEdit.AddRefineRun(run), now);
    }

    method AppendRefineRunLogs(id: string, runId: string, lines: seq<string>, now: int) returns (r: Option<PlanSession>)
      modifies this
      ensures (sessions, r) == EditAt(old(sessions), id, EditRefineRun(runId, RunLogs(lines)), now)
      ensures draftInput == old(draftInput) && stored == if r.None? then old(stored) else Some(State())
    {
      r := Edit(id, EditRefineRun(runId, RunLogs(lines)), now);
    }

    method UpdateRefineRunStatus(id: string, runId: string, status: Status, now: int) returns (r: Option<PlanSession>)
      modifies this
      ensures (sessions, r) == EditAt(old(sessions), id, EditRefineRun(runId, RunStatus(status)), now)
      ensures draftInput == old(draftInput) && stored == if r.None? then old(stored) else Some(State())
    {
      r := Edit(id, EditRefineRun(runId, RunStatus(status)), now);
    }

    method ToggleRefineRunCollapse(id: string, runId: string, now: int) returns (r: Option<PlanSession>)
      modifies this
      ensures (sessions, r) == EditAt(old(sessions), id, EditRefineRun(runId, RunToggle), now)
      ensures draftInput == old(draftInput) && stored == if r.None? then old(stored) else Some(State())
    {
      r := Edit(id, EditRefineRun(runId, RunToggle), now);
    }

    method ToggleSessionCollapse(id: string, now: int) returns (r: Option<PlanSession>)
      modifies this
      ensures (sessions, r) == EditAt(old(sessions), id, SessionEdit.ToggleSessionCollapse, now)
      ensures draftInput == old(draftInput) && stored == if r.None? then old(stored) else Some(State())
    {
      r := Edit(id, SessionEdit.ToggleSessionCollapse, now);
    }

    method ToggleImplCollapse(id: string, now: int) returns (r: Option<PlanSession>)
      modifies this
      ensures (sessions, r) == EditAt(old(sessions), id, SessionEdit.ToggleImplCollapse, now)
      ensures draftInput == old(draftInput) && stored == if r.None? then old(stored) else Some(State())
    {
      r := Edit(id, SessionEdit.ToggleImplCollapse, now);
    }

    /** `deleteSession`: every session with the id goes; the state is persisted either way. */
    method DeleteSession(id: string)
      modifies this
      ensures sessions == Without(old(sessions), id) && draftInput == old(draftInput)
      ensures stored == Some(State())
    {
      sessions := Without(sessions, id);
      stored := Some(State());
    }

    method UpdateDraftInput(value: string)
      modifies this
      ensures sessions == old(sessions) && draftInput == value && stored == Some(State())
    {
      draftInput := value;
      stored := Some(State());
    }
  }
}
