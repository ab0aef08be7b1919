/**
 * The permission decision cascade (`python/agentize/permission/determine.py`).
 *
 * Every external party is an oracle: the rule matcher (`match_rule`, whose
 * module is not part of this model), the judge model run as a subprocess,
 * and the Telegram Bot API.  An oracle that raises is an `Err`.  The
 * Telegram wait is bounded by a poll budget: the replies the loop receives
 * before its deadline are given as a sequence.
 */
module PermissionGate {
  import opened Wrappers
  import opened Text
  import opened ToolTarget
  import Strips

  datatype Decision = Allow | Deny | Ask

  /** The decision together with the tier that produced it ('haiku', 'telegram', a rule tag, or 'error'). */
  datatype Verdict = Verdict(decision: Decision, source: string)

  /** A rule match: its decision and its source tag, such as `rules:hardcoded`. */
  datatype RuleHit = RuleHit(decision: Decision, source: string)

  /** `os.getenv(key, default)`. */
  function EnvOr(env: map<string, string>, key: string, default: string): string {
    if key in env then env[key] else default
  }

  /** `os.getenv(key, default).lower() in values`. */
  predicate FlagIn(env: map<string, string>, key: string, default: string, values: set<string>) {
    Lower(EnvOr(env, key, default)) in values
  }

  // ---------------------------------------------------------------------
  // The judge (_ask_haiku_first)
  // ---------------------------------------------------------------------

  /** How the `claude --model haiku` subprocess ended. */
  datatype JudgeCall = Replied(output: string) | TimedOut | ProcessFailed | Crashed

  /** The judge's reply, stripped and lower-cased, classified by its first word. */
  function ClassifyReply(output: string): Decision {
    var reply := Lower(PyStrip(output));
    if "allow" <= reply then Allow
    else if "deny" <= reply then Deny
    else Ask
  }

  predicate AutoPermissionOn(env: map<string, string>) {
    FlagIn(env, "HANDSOFF_AUTO_PERMISSION", "0", {"1", "true", "on", "enable"})
  }

  /**
   * `_ask_haiku_first`: 'ask' unless hands-off auto permission is on, the
   * last transcript line could be read and the subprocess replied.
   */
  function JudgeDecision(env: map<string, string>, transcriptReadable: bool, call: JudgeCall): Decision {
    if !AutoPermissionOn(env) then Ask
    else if !transcriptReadable then Ask
    else match call
      case Replied(output) => ClassifyReply(output)
      case _ => Ask
  }

  /** A judge verdict other than 'ask' needs the flag, the transcript and a reply starting with that word. */
  lemma JudgeNeedsReply(env: map<string, string>, readable: bool, call: JudgeCall)
    ensures JudgeDecision(env, readable, call) != Ask ==>
      AutoPermissionOn(env) && readable && call.Replied?
    ensures JudgeDecision(env, readable, call) == Allow ==> "allow" <= Lower(PyStrip(call.output))
    ensures JudgeDecision(env, readable, call) == Deny ==>
      "deny" <= Lower(PyStrip(call.output)) && !("allow" <= Lower(PyStrip(call.output)))
  {
  }

  /** The classification is by prefix: "Allowance" allows. */
  lemma AllowanceAllows(reply: string)
    requires reply == "Allowance"
    ensures ClassifyReply(reply) == Allow
  {
    StripByNoEdges(reply, PySpace);
    var l := Lower(reply);
    assert l[0] == 'a' && l[1] == 'l' && l[2] == 'l' && l[3] == 'o' && l[4] == 'w';
  }

  /** Leading blanks are stripped and case is ignored: "  DENY." denies. */
  lemma ShoutedDenyDenies(reply: string)
    requires reply == "  DENY."
    ensures ClassifyReply(reply) == Deny
  {
    assert Span(reply, PySpace) == 2 by { SpanExact(reply, PySpace, 2); }
    var t := reply[2..];
    assert t == "DENY.";
    assert SpanEnd(t, PySpace) == 0;
    assert PyStrip(reply) == t;
    assert Lower(t) == "deny.";
  }

  /** Any other reply asks. */
  lemma OtherReplyAsks(reply: string)
    requires reply == "maybe"
    ensures ClassifyReply(reply) == Ask
  {
    StripByNoEdges(reply, PySpace);
    assert Lower(reply) == "maybe";
  }

  // ---------------------------------------------------------------------
  // The human channel (_is_telegram_enabled, _get_telegram_config,
  // _telegram_approval_decision)
  // ---------------------------------------------------------------------

  /** `AGENTIZE_USE_TG` enables Telegram for 1, true or on, compared lower-cased. */
  predicate TelegramEnabled(env: map<string, string>) {
    FlagIn(env, "AGENTIZE_USE_TG", "0", {"1", "true", "on"})
  }

  /** 'enable' switches the judge on but not the human channel. */
  lemma EnableIsNotATelegramValue()
    ensures !TelegramEnabled(map["AGENTIZE_USE_TG" := "enable"])
    ensures AutoPermissionOn(map["HANDSOFF_AUTO_PERMISSION" := "enable"])
  {
    assert Lower("enable") == "enable";
  }

  datatype TelegramConfig = TelegramConfig(
    token: string, chatId: string, timeout: int, pollInterval: int, allowedUserIds: seq<int>)

  /** `[int(uid.strip()) for uid in parts if uid.strip()]`; a non-integer raises ValueError. */
  function ParseUserIds(parts: seq<string>): (r: Result<seq<int>>)
    ensures r.Ok? ==> |r.value| <= |parts|
  {
    if |parts| == 0 then Ok([])
    else
      var part := PyStrip(parts[0]);
      if part == "" then ParseUserIds(parts[1..])
      else match ParsePyInt(part)
        case None => Err("ValueError")
        case Some(id) =>
          match ParseUserIds(parts[1..])
          case Err(e) => Err(e)
          case Ok(rest) => Ok([id] + rest)
  }

  /**
   * `r` is what the comprehension makes of the stripped non-blank parts
   * `ids`: it succeeds exactly when every one is an integer, with their
   * `int()` values in order, and otherwise raises `ValueError`.
   */
  predicate ParsedInOrder(ids: seq<string>, r: Result<seq<int>>) {
    && (r.Ok? <==> forall i :: 0 <= i < |ids| ==> ParsePyInt(ids[i]).Some?)
    && (r.Err? ==> r.error == "ValueError")
    && (r.Ok? ==> |r.value| == |ids| && forall i :: 0 <= i < |ids| ==> ParsePyInt(ids[i]) == Some(r.value[i]))
  }

  /** The ids are the `int()` values of the stripped non-blank parts, in order, or the parse raises `ValueError`. */
  lemma {:induction false} ParseUserIdsSpec(parts: seq<string>)
    ensures ParsedInOrder(NonBlankStripped(parts), ParseUserIds(parts))
    decreases |parts|
  {
    if parts != [] {
      ParseUserIdsSpec(parts[1..]);
      var part := PyStrip(parts[0]);
      if part == "" {
        assert NonBlankStripped(parts) == NonBlankStripped(parts[1..]);
      } else {
        assert NonBlankStripped(parts) == [part] + NonBlankStripped(parts[1..]);
        ParsedCons(part, NonBlankStripped(parts[1..]), ParseUserIds(parts[1..]));
      }
    }
  }

  /** One more non-blank part in front: it is parsed first, and its failure wins. */
  lemma ParsedCons(part: string, tail: seq<string>, rest: Result<seq<int>>)
    requires ParsedInOrder(tail, rest)
    ensures ParsedInOrder([part] + tail,
      match ParsePyInt(part)
      case None => Err("ValueError")
      case Some(id) => (match rest case Err(e) => Err(e) case Ok(ids) => Ok([id] + ids)))
  {
    var all := [part] + tail;
    assert all[0] == part;
    assert forall i :: 0 < i < |all| ==> all[i] == tail[i - 1];
    match ParsePyInt(part)
    case None =>
    case Some(id) =>
      match rest
      case Err(_) =>
        var k :| 0 <= k < |tail| && !ParsePyInt(tail[k]).Some?;
        assert all[k + 1] == tail[k];
      case Ok(ids) =>
        var r := [id] + ids;
        assert forall i :: 0 < i < |all| ==> r[i] == ids[i - 1];
  }

  /**
   * `_get_telegram_config`: no configuration without both a token and a chat
   * id; the timeout, poll interval and allowed ids go through `int()`, which
   * raises on text that is not an integer.
   */
  function TelegramConfigOf(env: map<string, string>): Result<Option<TelegramConfig>> {
    var token := EnvOr(env, "TG_API_TOKEN", "");
    var chatId := EnvOr(env, "TG_CHAT_ID", "");
    if token == "" || chatId == "" then Ok(None)
    else match ParsePyInt(EnvOr(env, "TG_APPROVAL_TIMEOUT_SEC", "60"))
      case None => Err("ValueError")
      case Some(timeout) =>
        match ParsePyInt(EnvOr(env, "TG_POLL_INTERVAL_SEC", "5"))
        case None => Err("ValueError")
        case Some(interval) =>
          var ids := EnvOr(env, "TG_ALLOWED_USER_IDS", "");
          match (if ids != "" then ParseUserIds(Split(ids, ',')) else Ok([]))
          case Err(e) => Err(e)
          case Ok(allowed) => Ok(Some(TelegramConfig(token, chatId, timeout, interval, allowed)))
  }

  /** One Telegram update: its id, the message text ('' when absent) and the sender's id. */
  datatype Update = Update(updateId: Option<int>, text: string, userId: Option<int>)

  /** A decoded `getUpdates` reply. */
  datatype PollReply = PollReply(ok: bool, updates: seq<Update>)

  /** `update.get('update_id', 0) + 1`. */
  function NextOffset(u: Update): int {
    u.updateId.GetOr(0) + 1
  }

  /** The offset before the wait: one past the latest update, or 0. */
  function StartOffset(initial: Option<PollReply>): int {
    if initial.Some? && initial.value.ok && |initial.value.updates| > 0 then
      NextOffset(initial.value.updates[|initial.value.updates| - 1])
    else 0
  }

  /** `/allow` or `/deny`, alone or followed by a space, after strip and lower-casing. */
  function Command(text: string): Option<Decision> {
    var t := Lower(PyStrip(text));
    if t == "/allow" || "/allow " <= t then Some(Allow)
    else if t == "/deny" || "/deny " <= t then Some(Deny)
    else None
  }

  /** The responder filter: everyone when the allow-list is empty. */
  predicate ResponderAllowed(allowed: seq<int>, userId: Option<int>) {
    |allowed| == 0 || (userId.Some? && userId.value in allowed)
  }

  /** An update decides the request. */
  predicate Decides(u: Update, allowed: seq<int>) {
    ResponderAllowed(allowed, u.userId) && Command(u.text).Some?
  }

  /** The inner `for update in ...` loop: the first deciding update and the offset it leaves. */
  function ScanUpdates(updates: seq<Update>, offset: int, allowed: seq<int>): (Option<Decision>, int)
  {
    if |updates| == 0 then (None, offset)
    else if Decides(updates[0], allowed) then (Command(updates[0].text), NextOffset(updates[0]))
    else ScanUpdates(updates[1..], NextOffset(updates[0]), allowed)
  }

  /** What the wait produced: the decision, and the offset sent with each `getUpdates`. */
  datatype Polled = Polled(decision: Option<Decision>, offsets: seq<int>)

  /** The `while` loop over the replies that arrive before the deadline. */
  function PollLoop(polls: seq<Option<PollReply>>, offset: int, allowed: seq<int>): (r: Polled)
    ensures |r.offsets| <= |polls|
    ensures |polls| > 0 ==> |r.offsets| > 0 && r.offsets[0] == offset
  {
    if |polls| == 0 then Polled(None, [])
    else if polls[0].None? || !polls[0].value.ok then
      var rest := PollLoop(polls[1..], offset, allowed);
      Polled(rest.decision, [offset] + rest.offsets)
    else
      var (d, next) := ScanUpdates(polls[0].value.updates, offset, allowed);
      if d.Some? then Polled(d, [offset])
      else
        var rest := PollLoop(polls[1..], next, allowed);
        Polled(rest.decision, [offset] + rest.offsets)
  }

  /**
   * `_telegram_approval_decision` as a function of the environment, the
   * initial `getUpdates` reply, whether the request message was sent, and
   * the poll replies.  `None` is returned when the channel is off,
   * unconfigured, the send failed, or no decision came before the deadline.
   */
  function Approval(env: map<string, string>, initial: Option<PollReply>, sent: bool,
                    polls: seq<Option<PollReply>>): Result<Option<Decision>>
  {
    if !TelegramEnabled(env) then Ok(None)
    else match TelegramConfigOf(env)
      case Err(e) => Err(e)
      case Ok(None) => Ok(None)
      case Ok(Some(cfg)) =>
        if !sent then Ok(None)
        else Ok(PollLoop(if cfg.timeout > 0 then polls else [], StartOffset(initial), cfg.allowedUserIds).decision)
  }

  /** The inner loop of `_telegram_approval_decision`, update by update. */
  method ScanBatch(updates: seq<Update>, offset0: int, allowed: seq<int>)
    returns (decision: Option<Decision>, offset: int)
    ensures (decision, offset) == ScanUpdates(updates, offset0, allowed)
  {
    offset := offset0;
    decision := None;
    var j := 0;
    while j < |updates|
      invariant 0 <= j <= |updates|
      invariant ScanUpdates(updates, offset0, allowed) == ScanUpdates(updates[j..], offset, allowed)
    {
      var u := updates[j];
      offset := NextOffset(u);
      if ResponderAllowed(allowed, u.userId) {
        var cmd := Command(u.text);
        if cmd.Some? {
          decision := cmd;
          return;
        }
      }
      assert updates[j..][1..] == updates[j + 1..];
      j := j + 1;
    }
  }

  /** The `while` loop of `_telegram_approval_decision`, one reply per iteration. */
  method PollForDecision(budget: seq<Option<PollReply>>, start: int, allowed: seq<int>)
    returns (decision: Option<Decision>, requested: seq<int>)
    ensures Polled(decision, requested) == PollLoop(budget, start, allowed)
  {
    requested := [];
    var offset := start;
    var i := 0;
    while i < |budget|
      invariant 0 <= i <= |budget|
      invariant PollLoop(budget, start, allowed)
        == Polled(PollLoop(budget[i..], offset, allowed).decision,
                  requested + PollLoop(budget[i..], offset, allowed).offsets)
    {
      var reply := budget[i];
      ghost var before := requested;
      requested := requested + [offset];
      assert budget[i..][1..] == budget[i + 1..];
      if reply.Some? && reply.value.ok {
        var found, next := ScanBatch(reply.value.updates, offset, allowed);
        PollBatchStep(budget[i..], offset, allowed, before, found, next);
        if found.Some? {
          return found, requested;
        }
        offset := next;
      } else {
        PollSkipStep(budget[i..], offset, allowed, before);
      }
      i := i + 1;
    }
    decision := None;
  }

  /** A missing or failed reply: the loop goes on with the same offset after requesting it. */
  lemma PollSkipStep(polls: seq<Option<PollReply>>, offset: int, allowed: seq<int>, acc: seq<int>)
    requires |polls| > 0 && (polls[0].None? || !polls[0].value.ok)
    ensures var whole := PollLoop(polls, offset, allowed);
      var rest := PollLoop(polls[1..], offset, allowed);
      Polled(whole.decision, acc + whole.offsets) == Polled(rest.decision, (acc + [offset]) + rest.offsets)
  {
    ConcatAssoc(acc, [offset], PollLoop(polls[1..], offset, allowed).offsets);
  }

  /** A reply with updates: the loop stops at a decision, or goes on from the next offset. */
  lemma PollBatchStep(polls: seq<Option<PollReply>>, offset: int, allowed: seq<int>, acc: seq<int>,
                      d: Option<Decision>, next: int)
    requires |polls| > 0 && polls[0].Some? && polls[0].value.ok
    requires ScanUpdates(polls[0].value.updates, offset, allowed) == (d, next)
    ensures var whole := PollLoop(polls, offset, allowed);
      var rest := PollLoop(polls[1..], next, allowed);
      Polled(whole.decision, acc + whole.offsets)
        == if d.Some? then Polled(d, acc + [offset]) else Polled(rest.decision, (acc + [offset]) + rest.offsets)
  {
    ConcatAssoc(acc, [offset], PollLoop(polls[1..], next, allowed).offsets);
  }

  /**
   * `_telegram_approval_decision`.  It also returns the offset sent with
   * each `getUpdates` request of the wait.
   */
  method TelegramApproval(env: map<string, string>, initial: Option<PollReply>, sent: bool,
                          polls: seq<Option<PollReply>>)
    returns (outcome: Result<Option<Decision>>, requested: seq<int>)
    ensures outcome == Approval(env, initial, sent, polls)
    ensures outcome.Ok? && outcome.value.Some? ==> outcome.value.value != Ask
  {
    requested := [];
    if !TelegramEnabled(env) {
      return Ok(None), requested;
    }
    var config := TelegramConfigOf(env);
    if config.Err? {
      return Err(config.error), requested;
    }
    if config.value.None? {
      return Ok(None), requested;
    }
    var cfg := config.value.value;
    var offset := StartOffset(initial);
    if !sent {
      return Ok(None), requested;
    }
    var budget := if cfg.timeout > 0 then polls else [];
    var decision;
    decision, requested := PollForDecision(budget, offset, cfg.allowedUserIds);
    PollLoopNeverAsks(budget, offset, cfg.allowedUserIds);
    outcome := Ok(decision);
  }

  lemma {:induction false} CommandNeverAsks(updates: seq<Update>, offset: int, allowed: seq<int>)
    ensures ScanUpdates(updates, offset, allowed).0 != Some(Ask)
  {
    if |updates| > 0 && !Decides(updates[0], allowed) {
      CommandNeverAsks(updates[1..], NextOffset(updates[0]), allowed);
    }
  }

  lemma {:induction false} PollLoopNeverAsks(polls: seq<Option<PollReply>>, offset: int, allowed: seq<int>)
    ensures PollLoop(polls, offset, allowed).decision != Some(Ask)
  {
    if |polls| > 0 {
      if polls[0].None? || !polls[0].value.ok {
        PollLoopNeverAsks(polls[1..], offset, allowed);
      } else {
        CommandNeverAsks(polls[0].value.updates, offset, allowed);
        var (d, next) := ScanUpdates(polls[0].value.updates, offset, allowed);
        PollLoopNeverAsks(polls[1..], next, allowed);
      }
    }
  }

  /** A decision always comes from one update of one successful reply, sent by an allowed responder. */
  lemma {:induction false} ScanDecisionHasSource(updates: seq<Update>, offset: int, allowed: seq<int>)
    requires ScanUpdates(updates, offset, allowed).0.Some?
    ensures exists j :: (0 <= j < |updates| && Decides(updates[j], allowed)
                         && Command(updates[j].text) == ScanUpdates(updates, offset, allowed).0)
  {
    if !Decides(updates[0], allowed) {
      ScanDecisionHasSource(updates[1..], NextOffset(updates[0]), allowed);
      var j :| 0 <= j < |updates[1..]| && Decides(updates[1..][j], allowed)
        && Command(updates[1..][j].text) == ScanUpdates(updates[1..], NextOffset(updates[0]), allowed).0;
      assert updates[j + 1] == updates[1..][j];
    }
  }

  lemma {:induction false} PollDecisionHasSource(polls: seq<Option<PollReply>>, offset: int, allowed: seq<int>)
    requires PollLoop(polls, offset, allowed).decision.Some?
    ensures exists k, j :: (0 <= k < |polls| && polls[k].Some? && polls[k].value.ok
                            && 0 <= j < |polls[k].value.updates| && Decides(polls[k].value.updates[j], allowed)
                            && Command(polls[k].value.updates[j].text) == PollLoop(polls, offset, allowed).decision)
  {
    var d := PollLoop(polls, offset, allowed).decision;
    if polls[0].None? || !polls[0].value.ok {
      PollDecisionHasSource(polls[1..], offset, allowed);
      var k, j :| 0 <= k < |polls[1..]| && polls[1..][k].Some? && polls[1..][k].value.ok
        && 0 <= j < |polls[1..][k].value.updates| && Decides(polls[1..][k].value.updates[j], allowed)
        && Command(polls[1..][k].value.updates[j].text) == d;
      assert polls[k + 1] == polls[1..][k];
    } else {
      var (s, next) := ScanUpdates(polls[0].value.updates, offset, allowed);
      if s.Some? {
        ScanDecisionHasSource(polls[0].value.updates, offset, allowed);
      } else {
        PollDecisionHasSource(polls[1..], next, allowed);
        var k, j :| 0 <= k < |polls[1..]| && polls[1..][k].Some? && polls[1..][k].value.ok
          && 0 <= j < |polls[1..][k].value.updates| && Decides(polls[1..][k].value.updates[j], allowed)
          && Command(polls[1..][k].value.updates[j].text) == d;
        assert polls[k + 1] == polls[1..][k];
      }
    }
  }

  /** Every update scanned moves the offset to its id + 1, deciding or not. */
  lemma {:induction false} ScanOffsetIsLastSeen(updates: seq<Update>, offset: int, allowed: seq<int>)
    requires forall j :: 0 <= j < |updates| ==> !Decides(updates[j], allowed)
    ensures ScanUpdates(updates, offset, allowed)
      == (None, if |updates| == 0 then offset else NextOffset(updates[|updates| - 1]))
  {
    if |updates| > 0 {
      assert !Decides(updates[0], allowed);
      assert forall j :: 0 <= j < |updates[1..]| ==> updates[1..][j] == updates[j + 1];
      ScanOffsetIsLastSeen(updates[1..], NextOffset(updates[0]), allowed);
    }
  }

  /** A failed or not-ok reply leaves the offset for the next request as it was. */
  lemma FailedPollKeepsOffset(polls: seq<Option<PollReply>>, offset: int, allowed: seq<int>)
    requires |polls| >= 2 && (polls[0].None? || !polls[0].value.ok)
    ensures PollLoop(polls, offset, allowed).offsets[1] == offset
  {
  }

  /** With a non-positive timeout the loop never polls, so there is no decision. */
  lemma NoTimeNoDecision(env: map<string, string>, initial: Option<PollReply>, polls: seq<Option<PollReply>>)
    requires TelegramEnabled(env)
    requires TelegramConfigOf(env).Ok? && TelegramConfigOf(env).value.Some?
    requires TelegramConfigOf(env).value.value.timeout <= 0
    ensures Approval(env, initial, true, polls) == Ok(None)
  {
  }

  /** The channel stays silent when off, unconfigured, or when the request could not be sent. */
  lemma SilentChannel(env: map<string, string>, initial: Option<PollReply>, sent: bool, polls: seq<Option<PollReply>>)
    ensures !TelegramEnabled(env) ==> Approval(env, initial, sent, polls) == Ok(None)
    ensures TelegramEnabled(env) && TelegramConfigOf(env).Ok? && TelegramConfigOf(env).value.Some? && !sent
      ==> Approval(env, initial, sent, polls) == Ok(None)
    ensures TelegramEnabled(env) && (EnvOr(env, "TG_API_TOKEN", "") == "" || EnvOr(env, "TG_CHAT_ID", "") == "")
      ==> Approval(env, initial, sent, polls) == Ok(None)
  {
  }

  lemma NotAnInteger(t: string)
    requires t == "soon"
    ensures ParsePyInt(t) == None
  {
    StripByNoEdges(t, PySpace);
    assert !IsDigit(t[0]);
  }

  /** The environment of the examples below: Telegram on and configured, the timeout not an integer. */
  predicate BadTimeoutEnv(env: map<string, string>) {
    env == map["AGENTIZE_USE_TG" := "1", "TG_API_TOKEN" := "t", "TG_CHAT_ID" := "c",
               "TG_APPROVAL_TIMEOUT_SEC" := "soon"]
  }

  /** A timeout that `int()` rejects makes the human channel raise. */
  lemma BadTimeoutRaises(env: map<string, string>, initial: Option<PollReply>, sent: bool, polls: seq<Option<PollReply>>)
    requires BadTimeoutEnv(env)
    ensures Approval(env, initial, sent, polls).Err?
  {
    assert EnvOr(env, "AGENTIZE_USE_TG", "0") == "1";
    assert Lower("1") == "1";
    assert TelegramEnabled(env);
    assert EnvOr(env, "TG_APPROVAL_TIMEOUT_SEC", "60") == "soon";
    NotAnInteger("soon");
    assert TelegramConfigOf(env) == Err("ValueError");
  }

  // ---------------------------------------------------------------------
  // The cascade (_check_permission)
  // ---------------------------------------------------------------------

  /** The result of each external call, named by the call site in `_check_permission`. */
  datatype Oracles = Oracles(
    rule: Result<Option<RuleHit>>,         // match_rule, line 300
    judgeMain: Result<Decision>,            // _ask_haiku_first, line 311
    humanMain: Result<Option<Decision>>,    // _telegram_approval_decision, line 305 or 315
    judgeFallback: Result<Decision>,        // line 323
    humanFallback: Result<Option<Decision>>,// line 326
    humanLast: Result<Option<Decision>>)    // line 332, outside any try

  /** Judge, then the human channel when the judge says 'ask'. */
  function JudgePath(judge: Result<Decision>, human: Result<Option<Decision>>): Result<Verdict> {
    match judge
    case Err(e) => Err(e)
    case Ok(h) =>
      if h != Ask then Ok(Verdict(h, "haiku"))
      else match human
        case Err(e) => Err(e)
        case Ok(Some(d)) => Ok(Verdict(d, "telegram"))
        case Ok(None) => Ok(Verdict(h, "haiku"))
  }

  /** The body of the outer `try`. */
  function MainPath(o: Oracles): Result<Verdict> {
    match o.rule
    case Err(e) => Err(e)
    case Ok(None) => JudgePath(o.judgeMain, o.humanMain)
    case Ok(Some(hit)) =>
      if hit.decision != Ask then Ok(Verdict(hit.decision, hit.source))
      else match o.humanMain
        case Err(e) => Err(e)
        case Ok(Some(d)) => Ok(Verdict(d, "telegram"))
        case Ok(None) => Ok(Verdict(hit.decision, hit.source))
  }

  /** `_check_permission`: main path, judge retry, then the unguarded last resort. */
  function CheckPermission(o: Oracles): Result<Verdict> {
    match MainPath(o)
    case Ok(v) => Ok(v)
    case Err(_) =>
      match JudgePath(o.judgeFallback, o.humanFallback)
      case Ok(v) => Ok(v)
      case Err(_) =>
        match o.humanLast
        case Err(e) => Err(e)
        case Ok(Some(d)) => Ok(Verdict(d, "telegram"))
        case Ok(None) => Ok(Verdict(Ask, "error"))
  }

  /** A rule allow or deny is final: no other oracle changes the verdict. */
  lemma RuleVerdictIsFinal(o: Oracles, hit: RuleHit)
    requires o.rule == Ok(Some(hit)) && hit.decision != Ask
    ensures CheckPermission(o) == Ok(Verdict(hit.decision, hit.source))
    ensures forall o': Oracles :: o'.rule == o.rule ==> CheckPermission(o') == CheckPermission(o)
  {
  }

  /** A rule 'ask' defers to the human channel, and falls back to the rule's own result. */
  lemma RuleAskConsultsHuman(o: Oracles, hit: RuleHit)
    requires o.rule == Ok(Some(hit)) && hit.decision == Ask && o.humanMain.Ok?
    ensures o.humanMain.value.Some? ==> CheckPermission(o) == Ok(Verdict(o.humanMain.value.value, "telegram"))
    ensures o.humanMain.value.None? ==> CheckPermission(o) == Ok(Verdict(Ask, hit.source))
  {
  }

  /** Without a rule match the judge decides, and a judge 'ask' goes to the human channel. */
  lemma NoRuleAsksJudge(o: Oracles)
    requires o.rule == Ok(None) && o.judgeMain.Ok?
    ensures o.judgeMain.value != Ask ==> CheckPermission(o) == Ok(Verdict(o.judgeMain.value, "haiku"))
    ensures o.judgeMain.value == Ask && o.humanMain.Ok? ==>
      CheckPermission(o) == Ok(if o.humanMain.value.Some? then Verdict(o.humanMain.value.value, "telegram")
                               else Verdict(Ask, "haiku"))
  {
  }

  /** After the main path raises, the judge is retried; after that raises too, only the human channel is left. */
  lemma FallbackOrder(o: Oracles)
    requires MainPath(o).Err?
    ensures JudgePath(o.judgeFallback, o.humanFallback).Ok? ==>
      CheckPermission(o) == JudgePath(o.judgeFallback, o.humanFallback)
    ensures JudgePath(o.judgeFallback, o.humanFallback).Err? && o.humanLast == Ok(None) ==>
      CheckPermission(o) == Ok(Verdict(Ask, "error"))
  {
  }

  /** The cascade raises exactly when the main path, the retry and the unguarded last call all raise. */
  lemma CheckPermissionRaises(o: Oracles)
    ensures CheckPermission(o).Err? <==>
      MainPath(o).Err? && JudgePath(o.judgeFallback, o.humanFallback).Err? && o.humanLast.Err?
  {
  }

  /** So the cascade is not total: an exception from the call at line 332 escapes. */
  lemma CheckPermissionNotTotal()
    ensures CheckPermission(Oracles(Err("KeyError"), Ok(Ask), Ok(None), Err("OSError"), Ok(None),
                                    Err("ValueError"))).Err?
  {
  }

  /**
   * An allow is never invented: it is a rule's allow under the rule's tag, a
   * judge allow under 'haiku', or a human allow under 'telegram'; ('ask',
   * 'error') is the only verdict with source 'error'.
   */
  lemma AllowHasWitness(o: Oracles)
    ensures CheckPermission(o).Ok? && CheckPermission(o).value.decision == Allow ==>
      var src := CheckPermission(o).value.source;
      (o.rule.Ok? && o.rule.value.Some? && o.rule.value.value == RuleHit(Allow, src))
      || (src == "haiku" && (o.judgeMain == Ok(Allow) || o.judgeFallback == Ok(Allow)))
      || (src == "telegram" && Ok(Some(Allow)) in [o.humanMain, o.humanFallback, o.humanLast])
    ensures (CheckPermission(o).Ok? && CheckPermission(o).value.source == "error"
             && (o.rule.Err? || o.rule.value.None? || o.rule.value.value.source != "error")) ==>
      CheckPermission(o).value.decision == Ask
  {
  }

  /**
   * The human channel's own failure reaches the unguarded call: with the
   * main path and the retry raising, a non-integer timeout escapes.
   */
  lemma LastResortEscapes(env: map<string, string>, initial: Option<PollReply>, sent: bool,
                          polls: seq<Option<PollReply>>, o: Oracles)
    requires BadTimeoutEnv(env)
    requires MainPath(o).Err? && JudgePath(o.judgeFallback, o.humanFallback).Err?
    requires o.humanLast == Approval(env, initial, sent, polls)
    ensures CheckPermission(o).Err?
  {
    BadTimeoutRaises(env, initial, sent, polls);
  }

  // ---------------------------------------------------------------------
  // Debug-log routing and workflow detection
  // ---------------------------------------------------------------------

  datatype LogFile = ToolUsed | HaikuDetermined | TelegramDetermined

  predicate DebugLogging(env: map<string, string>) {
    FlagIn(env, "HANDSOFF_MODE", "0", {"1", "true", "on", "enable"})
    && FlagIn(env, "HANDSOFF_DEBUG", "0", {"1", "true", "on", "enable"})
  }

  /** `_log_debug_info`: which file, if any, records the decision. */
  function LogRoute(env: map<string, string>, v: Verdict): Option<LogFile> {
    if !DebugLogging(env) then None
    else if v.source == "rules" && v.decision == Allow then Some(ToolUsed)
    else if v.source == "haiku" then Some(HaikuDetermined)
    else if v.source == "telegram" then Some(TelegramDetermined)
    else None
  }

  /**
   * Routing compares the source exactly: a rule tagged `rules:<kind>` is never
   * logged, even when it allows, and 'error' is never logged.
   */
  lemma TaggedRuleSourcesUnlogged(env: map<string, string>, v: Verdict)
    requires "rules:" <= v.source || v.source == "error"
    ensures LogRoute(env, v) == None
  {
    assert v.source != "rules" && v.source != "haiku" && v.source != "telegram" by {
      if "rules:" <= v.source {
        assert |v.source| >= 6 && v.source[5] == ':';
      }
    }
  }

  lemma LogRouteNeedsBothFlags(env: map<string, string>, v: Verdict)
    ensures LogRoute(env, v).Some? ==> DebugLogging(env)
    ensures LogRoute(env, v) == Some(ToolUsed) <==> DebugLogging(env) && v == Verdict(Allow, "rules")
    ensures LogRoute(env, v) == Some(HaikuDetermined) <==> DebugLogging(env) && v.source == "haiku"
    ensures LogRoute(env, v) == Some(TelegramDetermined) <==> DebugLogging(env) && v.source == "telegram"
  {
  }

  /** `_detect_workflow`: the session state file is absent, unreadable, or decoded JSON. */
  datatype StateFile = Missing | Unreadable | Decoded(state: Json)

  predicate WorkflowIs(file: StateFile, name: string) {
    file.Decoded? && file.state.JObject?
    && "workflow" in file.state.fields && file.state.fields["workflow"] == JStr(name)
  }

  function DetectWorkflow(file: StateFile): (w: string)
    ensures w in {"plan", "impl", "unknown"}
    ensures w == "plan" <==> WorkflowIs(file, "ultra-planner")
    ensures w == "impl" <==> WorkflowIs(file, "issue-to-impl")
  {
    match file
    case Decoded(JObject(fields)) =>
      var wf := Get(fields, "workflow", JStr(""));
      if wf == JStr("ultra-planner") then "plan"
      else if wf == JStr("issue-to-impl") then "impl"
      else "unknown"
    case _ => "unknown"
  }

  // ---------------------------------------------------------------------
  // determine
  // ---------------------------------------------------------------------

  /**
   * The hook payload after `json.loads`: the fields `determine` reads
   * (`None` when absent).  It is passed explicitly instead of through the
   * module global `_hook_input`.
   */
  datatype HookInput = HookInput(toolName: Option<string>, sessionId: Option<string>, toolInput: Option<Json>)

  /**
   * The external calls of one `determine`.  Each is a function of the
   * arguments `_check_permission` passes, so the model can say which target
   * each one sees: a pair (tool, target) for the matcher, (tool, raw target)
   * for the judge, (tool, target, raw target) for the human channel.
   */
  datatype Backends = Backends(
    matchRule: (string, Json) -> Result<Option<RuleHit>>,
    judgeMain: (string, Json) -> Result<Decision>,
    humanMain: (string, Json, Json) -> Result<Option<Decision>>,
    judgeFallback: (string, Json) -> Result<Decision>,
    humanFallback: (string, Json, Json) -> Result<Option<Decision>>,
    humanLast: (string, Json, Json) -> Result<Option<Decision>>)

  /** What `determine` returns (the permission decision) and the debug log it writes, if any. */
  datatype Determination = Determination(decision: Decision, logged: Option<LogFile>)

  /** The target the rule matcher sees: normalised for Bash only. */
  function MatchTarget(tool: string, raw: Json): Result<Json> {
    if tool != "Bash" then Ok(raw)
    else match raw
      case JStr(command) => Ok(JStr(Strips.NormalizeBashCommand(command)))
      case _ => Err("TypeError")
  }

  function OraclesFor(b: Backends, tool: string, target: Json, raw: Json): Oracles {
    Oracles(b.matchRule(tool, target), b.judgeMain(tool, raw), b.humanMain(tool, target, raw),
            b.judgeFallback(tool, raw), b.humanFallback(tool, target, raw), b.humanLast(tool, target, raw))
  }

  /** The decision returned and the log written for a cascade outcome. */
  function Reported(env: map<string, string>, v: Result<Verdict>): Result<Determination> {
    match v
    case Err(e) => Err(e)
    case Ok(verdict) => Ok(Determination(verdict.decision, LogRoute(env, verdict)))
  }

  /** `determine(stdin_data)` after JSON decoding. */
  function Determine(hook: HookInput, env: map<string, string>, repr: Json -> string, b: Backends): Result<Determination>
  {
    if hook.toolName.None? || hook.sessionId.None? then Err("KeyError")
    else
      var tool := hook.toolName.value;
      var input := hook.toolInput.GetOr(JObject(map[]));
      match ExtractTarget(tool, input, repr)
      case Err(e) => Err(e)
      case Ok(raw) =>
        match MatchTarget(tool, raw)
        case Err(e) => Err(e)
        case Ok(target) =>
          Reported(env, CheckPermission(OraclesFor(b, tool, target, raw)))
  }

  /**
   * `determine` returns the cascade's decision.  The matcher sees the Bash
   * command normalised and every other target unchanged; the judge always
   * sees the raw target; the log routing is by the verdict's source.
   */
  lemma DetermineUsesCascade(hook: HookInput, env: map<string, string>, repr: Json -> string, b: Backends,
                             tool: string, raw: Json)
    requires hook.toolName == Some(tool) && hook.sessionId.Some?
    requires ExtractTarget(tool, hook.toolInput.GetOr(JObject(map[])), repr) == Ok(raw)
    ensures tool != "Bash" ==> MatchTarget(tool, raw) == Ok(raw)
    ensures tool == "Bash" && raw.JStr? ==> MatchTarget(tool, raw) == Ok(JStr(Strips.NormalizeBashCommand(raw.s)))
    ensures tool == "Bash" && !raw.JStr? ==> Determine(hook, env, repr, b) == Err("TypeError")
    ensures MatchTarget(tool, raw).Ok? ==>
      Determine(hook, env, repr, b) == Reported(env, CheckPermission(OraclesFor(b, tool, MatchTarget(tool, raw).value, raw)))
  {
    match MatchTarget(tool, raw)
    case Ok(target) => DetermineOnTarget(hook, env, repr, b, tool, raw, target);
    case Err(e) =>
  }

  /** With the target matched, `determine` reports the cascade over it. */
  lemma DetermineOnTarget(hook: HookInput, env: map<string, string>, repr: Json -> string, b: Backends,
                          tool: string, raw: Json, target: Json)
    requires hook.toolName == Some(tool) && hook.sessionId.Some?
    requires ExtractTarget(tool, hook.toolInput.GetOr(JObject(map[])), repr) == Ok(raw)
    requires MatchTarget(tool, raw) == Ok(target)
    ensures Determine(hook, env, repr, b) == Reported(env, CheckPermission(OraclesFor(b, tool, target, raw)))
  {
  }

  /** A payload without `tool_name` or `session_id` raises before any oracle is called. */
  lemma DetermineNeedsNames(hook: HookInput, env: map<string, string>, repr: Json -> string, b: Backends)
    requires hook.toolName.None? || hook.sessionId.None?
    ensures Determine(hook, env, repr, b) == Err("KeyError")
  {
  }
}
