/**
 * The per-tool target string that permission rules are matched against
 * (`python/agentize/permission/parser.py`, `extract_target`).
 *
 * The hook payload is JSON, so a tool input is modelled as a JSON value.
 * Python's f-string rendering of a value is `Render`; for lists and objects
 * it is Python's `repr`, which is taken as a parameter (`repr`) rather than
 * modelled character by character.
 */
module ToolTarget {
  import opened Wrappers
  import opened Text

  /** A JSON value as `json.loads` produces it (fractional numbers left out). */
  datatype Json =
    | JNull
    | JBool(b: bool)
    | JInt(i: int)
    | JStr(s: string)
    | JList(items: seq<Json>)
    | JObject(fields: map<string, Json>)

  /** Python truthiness of a decoded JSON value. */
  predicate Truthy(v: Json) {
    match v
    case JNull => false
    case JBool(b) => b
    case JInt(i) => i != 0
    case JStr(s) => s != ""
    case JList(items) => |items| > 0
    case JObject(fields) => |fields| > 0
  }

  /** `str(v)`, which is what an f-string placeholder renders. */
  function Render(v: Json, repr: Json -> string): string {
    match v
    case JNull => "None"
    case JBool(b) => if b then "True" else "False"
    case JInt(i) => IntToDecimal(i)
    case JStr(s) => s
    case JList(_) => repr(v)
    case JObject(_) => repr(v)
  }

  /** `d.get(key, default)` on a decoded object. */
  function Get(fields: map<string, Json>, key: string, default: Json): (v: Json)
    ensures key in fields ==> v == fields[key]
    ensures key !in fields ==> v == default
  {
    if key in fields then fields[key] else default
  }

  /** The tool names that have their own branch in `extract_target`. */
  predicate IsKnownTool(tool: string) {
    tool in {"Read", "Write", "Edit", "NotebookEdit", "Bash", "Grep", "Glob", "Task",
             "Skill", "WebFetch", "WebSearch", "LSP", "AskUserQuestion", "TodoWrite"}
  }

  predicate AllObjects(questions: seq<Json>) {
    forall k :: 0 <= k < |questions| ==> questions[k].JObject?
  }

  /**
   * Headers of the AskUserQuestion entries.  The comprehension calls `.get`
   * on every entry before the join sees any header, so an entry that is not
   * an object raises AttributeError wherever it stands; only then does a
   * non-string header make the join raise TypeError.
   */
  function Headers(questions: seq<Json>): (r: Result<seq<string>>)
    ensures !AllObjects(questions) ==> r == Err("AttributeError")
    ensures AllObjects(questions) && r.Err? ==> r == Err("TypeError")
    ensures r.Ok? ==> |r.value| == |questions|
    ensures r.Ok? ==> AllObjects(questions)
    ensures r.Ok? ==> forall k :: 0 <= k < |questions| ==>
      Get(questions[k].fields, "header", JStr("")) == JStr(r.value[k])
  {
    if !AllObjects(questions) then Err("AttributeError") else HeaderStrings(questions)
  }

  /** The join over the headers of object entries: TypeError at a header that is not a string. */
  function HeaderStrings(questions: seq<Json>): (r: Result<seq<string>>)
    requires AllObjects(questions)
    ensures r.Err? ==> r == Err("TypeError")
    ensures r.Ok? ==> |r.value| == |questions|
    ensures r.Ok? ==> forall k :: 0 <= k < |questions| ==>
      Get(questions[k].fields, "header", JStr("")) == JStr(r.value[k])
  {
    if |questions| == 0 then Ok([])
    else
      match Get(questions[0].fields, "header", JStr(""))
      case JStr(h) =>
        (match HeaderStrings(questions[1..])
         case Ok(rest) => Ok([h] + rest)
         case Err(e) => Err(e))
      case _ => Err("TypeError")
  }

  /** `len(v)`, defined for strings, lists and objects. */
  function Length(v: Json): Result<nat> {
    match v
    case JStr(s) => Ok(|s|)
    case JList(items) => Ok(|items|)
    case JObject(fields) => Ok(|fields|)
    case _ => Err("TypeError")
  }

  /** The AskUserQuestion branch: '' without questions, else the joined headers. */
  function QuestionsTarget(questions: Json): Result<Json> {
    if !Truthy(questions) then Ok(JStr(""))
    else match questions
      case JList(items) =>
        (match Headers(items)
         case Ok(hs) => Ok(JStr("questions=" + Join(hs, ",")))
         case Err(e) => Err(e))
      case JInt(_) => Err("TypeError")
      case JBool(_) => Err("TypeError")
      case _ => Err("AttributeError")
  }

  /**
   * `extract_target(tool, tool_input)`.  A branch that calls `.get` on an
   * input that is not an object raises; every other branch returns.
   */
  function ExtractTarget(tool: string, input: Json, repr: Json -> string): Result<Json>
  {
    if !IsKnownTool(tool) then
      var text := Render(input, repr);
      Ok(JStr(text[..if |text| < 100 then |text| else 100]))
    else if !input.JObject? then Err("AttributeError")
    else
      var f := input.fields;
      if tool in {"Read", "Write", "Edit", "NotebookEdit"} then Ok(Get(f, "file_path", JStr("")))
      else if tool == "Bash" then Ok(Get(f, "command", JStr("")))
      else if tool == "Grep" || tool == "Glob" then
        var path := Get(f, "path", JStr(""));
        Ok(JStr("pattern=" + Render(Get(f, "pattern", JStr("")), repr)
                + (if Truthy(path) then " path=" + Render(path, repr) else "")))
      else if tool == "Task" then
        Ok(JStr("subagent=" + Render(Get(f, "subagent_type", JStr("")), repr)
                + " desc=" + Render(Get(f, "description", JStr("")), repr)))
      else if tool == "Skill" then
        var args := Get(f, "args", JStr(""));
        match Get(f, "skill", JStr(""))
        case JStr(skill) => Ok(JStr(skill + (if Truthy(args) then " " + Render(args, repr) else "")))
        case _ => Err("TypeError")
      else if tool == "WebFetch" then Ok(Get(f, "url", JStr("")))
      else if tool == "WebSearch" then Ok(JStr("query=" + Render(Get(f, "query", JStr("")), repr)))
      else if tool == "LSP" then
        Ok(JStr("op=" + Render(Get(f, "operation", JStr("")), repr)
                + " file=" + Render(Get(f, "filePath", JStr("")), repr)
                + ":" + Render(Get(f, "line", JStr("")), repr)))
      else if tool == "AskUserQuestion" then QuestionsTarget(Get(f, "questions", JList([])))
      else
        match Length(Get(f, "todos", JList([])))
        case Ok(n) => Ok(JStr("todos=" + NatToDecimal(n)))
        case Err(e) => Err(e)
  }

  // ---------------------------------------------------------------------
  // Properties
  // ---------------------------------------------------------------------

  /** File tools return `file_path` and Bash returns `command`, each defaulting to ''. */
  lemma PathAndCommandTargets(tool: string, f: map<string, Json>, repr: Json -> string)
    ensures tool in {"Read", "Write", "Edit", "NotebookEdit"} ==>
      ExtractTarget(tool, JObject(f), repr) == Ok(if "file_path" in f then f["file_path"] else JStr(""))
    ensures tool == "Bash" ==>
      ExtractTarget(tool, JObject(f), repr) == Ok(if "command" in f then f["command"] else JStr(""))
  {
  }

  /** Grep and Glob give `pattern=P`, and ` path=X` only when the path is truthy. */
  lemma SearchTargets(tool: string, pattern: string, path: string, rest: map<string, Json>, repr: Json -> string)
    requires tool == "Grep" || tool == "Glob"
    ensures ExtractTarget(tool, JObject(rest["pattern" := JStr(pattern)]["path" := JStr(path)]), repr)
      == Ok(JStr("pattern=" + pattern + (if path == "" then "" else " path=" + path)))
    ensures "path" !in rest ==>
      ExtractTarget(tool, JObject(rest["pattern" := JStr(pattern)]), repr) == Ok(JStr("pattern=" + pattern))
  {
    assert "pattern=" + pattern + "" == "pattern=" + pattern;
  }

  /** Task gives `subagent=S desc=D`. */
  lemma TaskTarget(subagent: string, desc: string, repr: Json -> string)
    ensures ExtractTarget("Task", JObject(map["subagent_type" := JStr(subagent), "description" := JStr(desc)]), repr)
      == Ok(JStr("subagent=" + subagent + " desc=" + desc))
  {
  }

  /** Skill gives the skill name, followed by ` args` only when args is non-empty. */
  lemma SkillTarget(skill: string, args: string, repr: Json -> string)
    ensures ExtractTarget("Skill", JObject(map["skill" := JStr(skill), "args" := JStr(args)]), repr)
      == Ok(JStr(if args == "" then skill else skill + " " + args))
  {
    var f := map["skill" := JStr(skill), "args" := JStr(args)];
    assert Get(f, "skill", JStr("")) == JStr(skill);
    assert Get(f, "args", JStr("")) == JStr(args);
    assert !("Skill" in {"Read", "Write", "Edit", "NotebookEdit"});
    assert ExtractTarget("Skill", JObject(f), repr)
      == Ok(JStr(skill + (if Truthy(JStr(args)) then " " + Render(JStr(args), repr) else "")));
    assert skill + "" == skill;
    assert skill + (" " + args) == skill + " " + args;
  }

  /** WebFetch gives the url, WebSearch `query=Q` and LSP `op=O file=F:L`. */
  lemma WebAndLspTargets(url: string, query: string, op: string, file: string, line: int, repr: Json -> string)
    ensures ExtractTarget("WebFetch", JObject(map["url" := JStr(url)]), repr) == Ok(JStr(url))
    ensures ExtractTarget("WebSearch", JObject(map["query" := JStr(query)]), repr) == Ok(JStr("query=" + query))
    ensures ExtractTarget("LSP", JObject(map["operation" := JStr(op), "filePath" := JStr(file), "line" := JInt(line)]), repr)
      == Ok(JStr("op=" + op + " file=" + file + ":" + IntToDecimal(line)))
  {
  }

  /** AskUserQuestion without questions gives ''; with header-bearing questions, the joined headers. */
  lemma {:induction false} QuestionTargets(headers: seq<string>, repr: Json -> string)
    ensures ExtractTarget("AskUserQuestion", JObject(map[]), repr) == Ok(JStr(""))
    ensures |headers| > 0 ==>
      var qs := seq(|headers|, k requires 0 <= k < |headers| => JObject(map["header" := JStr(headers[k])]));
      ExtractTarget("AskUserQuestion", JObject(map["questions" := JList(qs)]), repr)
        == Ok(JStr("questions=" + Join(headers, ",")))
  {
    var qs := seq(|headers|, k requires 0 <= k < |headers| => JObject(map["header" := JStr(headers[k])]));
    HeadersOfHeaderObjects(headers, qs);
  }

  lemma {:induction false} HeadersOfHeaderObjects(headers: seq<string>, qs: seq<Json>)
    requires |qs| == |headers|
    requires forall k :: 0 <= k < |qs| ==> qs[k] == JObject(map["header" := JStr(headers[k])])
    ensures AllObjects(qs) && HeaderStrings(qs) == Ok(headers)
    ensures Headers(qs) == Ok(headers)
  {
    if |qs| > 0 {
      assert forall k :: 0 <= k < |qs| - 1 ==> qs[1..][k] == qs[k + 1];
      HeadersOfHeaderObjects(headers[1..], qs[1..]);
      assert headers == [headers[0]] + headers[1..];
    }
  }

  /** TodoWrite gives the number of todos, `todos=0` when there are none. */
  lemma TodoTarget(todos: seq<Json>, repr: Json -> string)
    ensures ExtractTarget("TodoWrite", JObject(map["todos" := JList(todos)]), repr)
      == Ok(JStr("todos=" + NatToDecimal(|todos|)))
    ensures ExtractTarget("TodoWrite", JObject(map[]), repr) == Ok(JStr("todos=0"))
  {
    TodoWriteBranch(map["todos" := JList(todos)], repr);
    TodoWriteBranch(map[], repr);
    assert Get(map[], "todos", JList([])) == JList([]);
    assert Length(JList([])) == Ok(0);
    assert NatToDecimal(0) == "0" by {
      assert NatToDecimal(0) == [DigitChar(0)];
    }
    assert "todos=" + "0" == "todos=0";
  }

  /** The TodoWrite branch of `extract_target`. */
  lemma TodoWriteBranch(f: map<string, Json>, repr: Json -> string)
    ensures ExtractTarget("TodoWrite", JObject(f), repr)
      == match Length(Get(f, "todos", JList([])))
         case Ok(n) => Ok(JStr("todos=" + NatToDecimal(n)))
         case Err(e) => Err(e)
  {
    var t := "TodoWrite";
    assert IsKnownTool(t);
    assert t[0] == 'T';
    assert t !in {"Read", "Write", "Edit", "NotebookEdit"};
    assert t != "Bash" && t != "Grep" && t != "Glob" && t != "Task" && t != "Skill";
    assert t != "WebFetch" && t != "WebSearch" && t != "LSP" && t != "AskUserQuestion";
  }

  /**
   * Any other tool gets `str` of the payload cut to at most 100 characters,
   * whatever the payload is: that branch cannot raise.  A string payload is
   * cut as it is, without the quotes `repr` would add.
   */
  lemma OtherToolTarget(tool: string, input: Json, repr: Json -> string)
    requires !IsKnownTool(tool)
    ensures var r := ExtractTarget(tool, input, repr);
      && r.Ok? && r.value.JStr?
      && |r.value.s| <= 100
      && r.value.s <= Render(input, repr)
      && (|Render(input, repr)| <= 100 ==> r.value.s == Render(input, repr))
      && (input.JStr? ==> r.value.s <= input.s && (|input.s| <= 100 ==> r.value.s == input.s))
  {
  }

  /**
   * For an object payload, the branches that only format (all but the file,
   * Bash and WebFetch pass-throughs) always yield a string, and the only ways
   * to raise are a non-string skill name, malformed questions or a `todos`
   * value without a length.
   */
  lemma ObjectPayloadOutcome(tool: string, f: map<string, Json>, repr: Json -> string)
    ensures var r := ExtractTarget(tool, JObject(f), repr);
      && (r.Ok? && tool !in {"Read", "Write", "Edit", "NotebookEdit", "Bash", "WebFetch"} ==> r.value.JStr?)
      && (r.Err? ==> tool in {"Skill", "AskUserQuestion", "TodoWrite"})
  {
  }
}
