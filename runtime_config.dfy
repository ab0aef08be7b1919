/**
 * The loader of `.agentize.local.yaml` (`python/agentize/server/runtime_config.py`):
 * a minimal indentation-based YAML reader, top-level key validation, the
 * CLI > env > file > default precedence rule and the per-workflow model map.
 *
 * The directory walk is a chain of candidate files, from the start
 * directory up to the root, each present or not.
 */
module RuntimeConfig {
  import opened Wrappers
  import opened Text

  const ValidTopLevelKeys: set<string> :=
    {"server", "telegram", "workflows", "handsoff", "project", "git", "agentize", "worktree", "pre_commit", "permissions"}
  const ValidWorkflowNames: set<string> := {"impl", "refine", "dev_req", "rebase"}
  const ValidModels: set<string> := {"opus", "sonnet", "haiku"}

  /** A parsed value: `int()`-able scalars, strings, lists and dicts. */
  datatype Value = VInt(i: int) | VStr(s: string) | VList(items: seq<Value>) | VDict(entries: map<string, Value>)

  const EmptyDict := VDict(map[])

  /** A kept line: its leading-whitespace width and its stripped text. */
  datatype Line = Line(indent: nat, text: string)

  // ---------------------------------------------------------------------
  // Reading the file
  // ---------------------------------------------------------------------

  predicate Dropped(stripped: string) {
    stripped == "" || stripped[0] == '#'
  }

  function LineOf(raw: string): Line {
    Line(Span(raw, PySpace), PyStrip(raw))
  }

  /** What one raw line contributes. */
  function KeptLine(raw: string): (r: seq<Line>)
    ensures |r| <= 1
    ensures forall k :: 0 <= k < |r| ==> !Dropped(r[k].text)
  {
    if Dropped(PyStrip(raw)) then [] else [LineOf(raw)]
  }

  /** Blank and `#` lines dropped, the rest kept in order as (indent, stripped text). */
  function ConfigLines(raw: seq<string>): (r: seq<Line>)
    ensures |r| <= |raw|
    ensures forall k :: 0 <= k < |r| ==> !Dropped(r[k].text)
  {
    if |raw| == 0 then [] else ConfigLines(raw[..|raw| - 1]) + KeptLine(raw[|raw| - 1])
  }

  /** The reading loop of `_parse_yaml_file`. */
  method ReadConfigLines(text: string) returns (lines: seq<Line>)
    ensures lines == ConfigLines(FileLines(text))
  {
    var raw := FileLines(text);
    lines := [];
    for i := 0 to |raw|
      invariant lines == ConfigLines(raw[..i])
    {
      ConfigLinesSnoc(raw, i);
      var stripped := PyStrip(raw[i]);
      if !Dropped(stripped) {
        lines := lines + [Line(Span(raw[i], PySpace), stripped)];
      }
    }
    assert raw[..|raw|] == raw;
  }

  /** Reading one more raw line appends what it contributes. */
  lemma ConfigLinesSnoc(raw: seq<string>, i: nat)
    requires i < |raw|
    ensures Dropped(PyStrip(raw[i])) ==> ConfigLines(raw[..i + 1]) == ConfigLines(raw[..i])
    ensures !Dropped(PyStrip(raw[i])) ==> ConfigLines(raw[..i + 1]) == ConfigLines(raw[..i]) + [Line(Span(raw[i], PySpace), PyStrip(raw[i]))]
  {
    assert raw[..i + 1][..i] == raw[..i];
    if Dropped(PyStrip(raw[i])) {
      assert ConfigLines(raw[..i]) + [] == ConfigLines(raw[..i]);
    }
  }

  // ---------------------------------------------------------------------
  // Scalars and `key: value`
  // ---------------------------------------------------------------------

  predicate IsQuote(c: char) {
    c == '"' || c == '\''
  }

  /** Non-empty, starting with a quote and ending with the same character. */
  predicate Quoted(v: string) {
    |v| > 0 && IsQuote(v[0]) && v[|v| - 1] == v[0]
  }

  /** `v[1:-1]` for a quoted value (a lone quote character gives ""). */
  function Unquote(v: string): (r: string)
    ensures |r| <= |v|
  {
    if Quoted(v) then (if |v| >= 2 then v[1..|v| - 1] else "") else v
  }

  /** `int(value)` when it parses, else the string. */
  function Scalar(v: string): Value {
    match ParsePyInt(v)
    case Some(n) => VInt(n)
    case None => VStr(v)
  }

  /** A non-empty value is a scalar; an empty one becomes `{}`. */
  function EntryValue(v: string): Value {
    if v != "" then Scalar(v) else EmptyDict
  }

  /** `stripped.partition(":")` with key and value stripped and the value unquoted; None without a ':'. */
  function Partition(text: string): (r: Option<(string, string)>)
    ensures r.None? <==> ':' !in text
  {
    IndexOfFirst(text, ':');
    match IndexOf(text, ':')
    case None => None
    case Some(k) => Some((PyStrip(text[..k]), Unquote(PyStrip(text[k + 1..]))))
  }

  predicate IsDash(text: string) {
    "- " <= text
  }

  // ---------------------------------------------------------------------
  // _find_block_end
  // ---------------------------------------------------------------------

  /** The first index at or after `start` whose indent is at most `parent`, or `end`. */
  function BlockEnd(lines: seq<Line>, start: nat, end: nat, parent: int): (r: nat)
    requires start <= end <= |lines|
    ensures start <= r <= end
    ensures forall k :: start <= k < r ==> lines[k].indent > parent
    ensures r == end || lines[r].indent <= parent
    decreases end - start
  {
    if start == end || lines[start].indent <= parent then start else BlockEnd(lines, start + 1, end, parent)
  }

  method FindBlockEnd(lines: seq<Line>, start: nat, end: nat, parent: int) returns (r: nat)
    requires start <= end <= |lines|
    ensures r == BlockEnd(lines, start, end, parent)
  {
    r := start;
    while r < end
      invariant start <= r <= end
      invariant BlockEnd(lines, start, end, parent) == BlockEnd(lines, r, end, parent)
    {
      if lines[r].indent <= parent {
        return;
      }
      r := r + 1;
    }
  }

  // ---------------------------------------------------------------------
  // _parse_list
  // ---------------------------------------------------------------------

  /** `d` with the `key: value` of `text` added, or `d` when `text` has no ':'. */
  function WithEntry(d: map<string, Value>, text: string): (r: map<string, Value>)
    ensures ':' !in text ==> r == d
    ensures ':' in text ==> r == d[Partition(text).value.0 := EntryValue(Partition(text).value.1)]
  {
    match Partition(text)
    case None => d
    case Some(kv) => d[kv.0 := EntryValue(kv.1)]
  }

  /** The deeper non-dash lines after a "- k: v" item, folded into its dict; returns where they stop. */
  function AbsorbKeys(lines: seq<Line>, i: nat, end: nat, indent: int, d: map<string, Value>): (r: (map<string, Value>, nat))
    requires i <= end <= |lines|
    ensures i <= r.1 <= end
    ensures r.1 == end || lines[r.1].indent <= indent || IsDash(lines[r.1].text)
    ensures forall k :: i <= k < r.1 ==> lines[k].indent > indent && !IsDash(lines[k].text)
    decreases end - i
  {
    if i == end || lines[i].indent <= indent || IsDash(lines[i].text) then (d, i)
    else AbsorbKeys(lines, i + 1, end, indent, WithEntry(d, lines[i].text))
  }

  /** The list item on dash line `i`, and the index after it. */
  function ListItem(lines: seq<Line>, i: nat, end: nat): (r: (Value, nat))
    requires i < end <= |lines| && IsDash(lines[i].text)
    ensures i < r.1 <= end
  {
    var content := PyStrip(lines[i].text[2..]);
    if Quoted(content) then (VStr(Unquote(content)), i + 1)
    else match Partition(content)
      case Some(kv) =>
        var absorbed := AbsorbKeys(lines, i + 1, end, lines[i].indent, map[kv.0 := EntryValue(kv.1)]);
        (VDict(absorbed.0), absorbed.1)
      case None => (Scalar(content), i + 1)
  }

  /** `_parse_list` from index `i` with the items so far: the items and where the list stops. */
  function ParsedList(lines: seq<Line>, i: nat, end: nat, parent: int, acc: seq<Value>): (r: (seq<Value>, nat))
    requires i <= end <= |lines|
    ensures i <= r.1 <= end
    ensures r.1 == end || lines[r.1].indent <= parent
    decreases end - i
  {
    if i == end || lines[i].indent <= parent then (acc, i)
    else if !IsDash(lines[i].text) then ParsedList(lines, i + 1, end, parent, acc)
    else
      var item := ListItem(lines, i, end);
      ParsedList(lines, item.1, end, parent, acc + [item.0])
  }

  /** The inner loop of a "- k: v" item: folds the deeper `key: value` lines into `d`. */
  method AbsorbLoop(lines: seq<Line>, i: nat, end: nat, indent: int, d: map<string, Value>)
    returns (dict: map<string, Value>, next: nat)
    requires i <= end <= |lines|
    ensures (dict, next) == AbsorbKeys(lines, i, end, indent, d)
  {
    dict := d;
    next := i;
    while next < end
      invariant i <= next <= end
      invariant AbsorbKeys(lines, i, end, indent, d) == AbsorbKeys(lines, next, end, indent, dict)
      decreases end - next
    {
      if lines[next].indent <= indent || IsDash(lines[next].text) {
        return;
      }
      ghost var before := dict;
      if ':' in lines[next].text {
        var kv := Partition(lines[next].text).value;
        dict := dict[kv.0 := EntryValue(kv.1)];
      }
      assert dict == WithEntry(before, lines[next].text);
      next := next + 1;
    }
  }

  /** One dash item of `_parse_list`: a quoted scalar, a "- k: v" dict with its absorbed lines, or a scalar. */
  method ParseItem(lines: seq<Line>, i: nat, end: nat) returns (item: Value, next: nat)
    requires i < end <= |lines| && IsDash(lines[i].text)
    ensures (item, next) == ListItem(lines, i, end)
  {
    var content := PyStrip(lines[i].text[2..]);
    if Quoted(content) {
      QuotedItem(lines, i, end);
      return VStr(Unquote(content)), i + 1;
    }
    if ':' !in content {
      ScalarItem(lines, i, end);
      return Scalar(content), i + 1;
    }
    var kv := Partition(content).value;
    DictItem(lines, i, end);
    var dict;
    dict, next := AbsorbLoop(lines, i + 1, end, lines[i].indent, map[kv.0 := EntryValue(kv.1)]);
    item := VDict(dict);
  }

  /** A quoted dash item is the unquoted string. */
  lemma QuotedItem(lines: seq<Line>, i: nat, end: nat)
    requires i < end <= |lines| && IsDash(lines[i].text)
    requires Quoted(PyStrip(lines[i].text[2..]))
    ensures ListItem(lines, i, end) == (VStr(Unquote(PyStrip(lines[i].text[2..]))), i + 1)
  {
  }

  /** A dash item without quotes or ':' is a scalar. */
  lemma ScalarItem(lines: seq<Line>, i: nat, end: nat)
    requires i < end <= |lines| && IsDash(lines[i].text)
    requires !Quoted(PyStrip(lines[i].text[2..])) && ':' !in PyStrip(lines[i].text[2..])
    ensures ListItem(lines, i, end) == (Scalar(PyStrip(lines[i].text[2..])), i + 1)
  {
  }

  /** An unquoted dash item with a ':' is a dict that absorbs the deeper lines. */
  lemma DictItem(lines: seq<Line>, i: nat, end: nat)
    requires i < end <= |lines| && IsDash(lines[i].text)
    requires !Quoted(PyStrip(lines[i].text[2..])) && ':' in PyStrip(lines[i].text[2..])
    ensures var kv := Partition(PyStrip(lines[i].text[2..])).value;
      var absorbed := AbsorbKeys(lines, i + 1, end, lines[i].indent, map[kv.0 := EntryValue(kv.1)]);
      ListItem(lines, i, end) == (VDict(absorbed.0), absorbed.1)
  {
  }

  method ParseList(lines: seq<Line>, start: nat, end: nat, parent: int) returns (items: seq<Value>, next: nat)
    requires start <= end <= |lines|
    ensures (items, next) == ParsedList(lines, start, end, parent, [])
  {
    items := [];
    next := start;
    while next < end
      invariant start <= next <= end
      invariant ParsedList(lines, start, end, parent, []) == ParsedList(lines, next, end, parent, items)
      decreases end - next
    {
      if lines[next].indent <= parent {
        break;
      }
      if !("- " <= lines[next].text) {
        next := next + 1;
      } else {
        var item, after := ParseItem(lines, next, end);
        items := items + [item];
        next := after;
      }
    }
  }

  // ---------------------------------------------------------------------
  // _parse_lines
  // ---------------------------------------------------------------------

  /**
   * `_parse_lines(lines, start, end, parent)` from loop index `i` with the
   * dict so far: stops at `end` or at a line no deeper than `parent` (other
   * than the first), and otherwise takes one step.
   */
  function ParsedDict(lines: seq<Line>, start: nat, i: nat, end: nat, parent: int, acc: map<string, Value>): map<string, Value>
    requires start <= i <= end <= |lines|
    decreases end - start, end - i, 2
  {
    if i == end || (lines[i].indent <= parent && i > start) then acc
    else
      var step := DictStep(lines, i, end, acc);
      ParsedDict(lines, start, step.1, end, parent, step.0)
  }

  /**
   * One step of `_parse_lines` at line `i`: dash lines and lines without ':'
   * are skipped; a key with a value is a scalar; a key without one takes
   * the value `NestedValue` reads after it. Returns the new dict and the
   * next index.
   */
  function DictStep(lines: seq<Line>, i: nat, end: nat, acc: map<string, Value>): (r: (map<string, Value>, nat))
    requires i < end <= |lines|
    ensures i < r.1 <= end
    decreases end - i, end - i, 1
  {
    if IsDash(lines[i].text) then (acc, i + 1)
    else match Partition(lines[i].text)
      case None => (acc, i + 1)
      case Some(kv) =>
        if kv.1 != "" then (acc[kv.0 := Scalar(kv.1)], i + 1)
        else
          var nested := NestedValue(lines, i, end);
          (acc[kv.0 := nested.0], nested.1)
  }

  /**
   * The value of the key without a value on line `i`, and the index after
   * it: a list when the next line is deeper and a dash, a nested dict over
   * the deeper block when it is deeper otherwise, and `{}` when it is not
   * deeper or there is none.
   */
  function NestedValue(lines: seq<Line>, i: nat, end: nat): (r: (Value, nat))
    requires i < end <= |lines|
    ensures i < r.1 <= end
    decreases end - i, end - i, 0
  {
    if i + 1 < end && lines[i + 1].indent > lines[i].indent then
      if IsDash(lines[i + 1].text) then
        var list := ParsedList(lines, i + 1, end, lines[i].indent, []);
        (VList(list.0), list.1)
      else
        var childEnd := BlockEnd(lines, i + 1, end, lines[i].indent);
        (VDict(ParsedDict(lines, i + 1, i + 1, childEnd, lines[i].indent, map[])), childEnd)
    else (EmptyDict, i + 1)
  }

  method ParseLines(lines: seq<Line>, start: nat, end: nat, parent: int) returns (result: map<string, Value>)
    requires start <= end <= |lines|
    ensures result == ParsedDict(lines, start, start, end, parent, map[])
    decreases end - start, end - start, 2
  {
    result := map[];
    var i := start;
    while i < end
      invariant start <= i <= end
      invariant ParsedDict(lines, start, start, end, parent, map[]) == ParsedDict(lines, start, i, end, parent, result)
      decreases end - i
    {
      if lines[i].indent <= parent && i > start {
        break;
      }
      result, i := ParseEntry(lines, i, end, result);
    }
  }

  /** The body of the `_parse_lines` loop for line `i`. */
  method ParseEntry(lines: seq<Line>, i: nat, end: nat, acc: map<string, Value>) returns (result: map<string, Value>, next: nat)
    requires i < end <= |lines|
    ensures (result, next) == DictStep(lines, i, end, acc)
    decreases end - i, end - i, 1
  {
    result := acc;
    next := i + 1;
    var stripped := lines[i].text;
    if IsDash(stripped) || ':' !in stripped {
      return;
    }
    var kv := Partition(stripped).value;
    var key := kv.0;
    var value := kv.1;
    if value != "" {
      result := result[key := Scalar(value)];
    } else if next < end && lines[next].indent > lines[i].indent {
      if IsDash(lines[next].text) {
        var items;
        items, next := ParseList(lines, next, end, lines[i].indent);
        result := result[key := VList(items)];
      } else {
        var childEnd := FindBlockEnd(lines, next, end, lines[i].indent);
        var child := ParseLines(lines, next, childEnd, lines[i].indent);
        result := result[key := VDict(child)];
        next := childEnd;
      }
    } else {
      result := result[key := EmptyDict];
    }
  }

  // ---------------------------------------------------------------------
  // _parse_yaml_file and load_runtime_config
  // ---------------------------------------------------------------------

  /** The dict `_parse_yaml_file` builds from a file's text. */
  function ParseYaml(text: string): map<string, Value> {
    var lines := ConfigLines(FileLines(text));
    ParsedDict(lines, 0, 0, |lines|, -1, map[])
  }

  method ParseYamlFile(text: string) returns (config: map<string, Value>)
    ensures config == ParseYaml(text)
  {
    var lines := ReadConfigLines(text);
    config := ParseLines(lines, 0, |lines|, -1);
  }

  /** The nearest directory of the chain (start directory first, root last) holding the file. */
  function Nearest(chain: seq<Option<string>>): (r: Option<nat>)
    ensures r.None? <==> forall k :: 0 <= k < |chain| ==> chain[k].None?
    ensures r.Some? ==> r.value < |chain| && chain[r.value].Some? && forall k :: 0 <= k < r.value ==> chain[k].None?
  {
    if |chain| == 0 then None
    else if chain[0].Some? then Some(0)
    else match Nearest(chain[1..])
      case None => None
      case Some(k) => Some(k + 1)
  }

  /**
   * `load_runtime_config` over the chain of candidate files: `({}, None)`
   * when no directory has one; otherwise the parsed file and its position,
   * or ValueError when a top-level key is not a valid one.
   */
  function RuntimeConfigOf(chain: seq<Option<string>>): (r: Result<(map<string, Value>, Option<nat>)>)
  {
    match Nearest(chain)
    case None => Ok((map[], None))
    case Some(k) =>
      var config := ParseYaml(chain[k].value);
      if config.Keys <= ValidTopLevelKeys then Ok((config, Some(k))) else Err("ValueError")
  }

  /** The upward search of `load_runtime_config`. */
  method FindConfigFile(chain: seq<Option<string>>) returns (found: Option<nat>)
    ensures found == Nearest(chain)
  {
    var current := 0;
    while current < |chain|
      invariant 0 <= current <= |chain|
      invariant forall k :: 0 <= k < current ==> chain[k].None?
    {
      if chain[current].Some? {
        return Some(current);
      }
      current := current + 1;
    }
    return None;
  }

  /** The key check of `load_runtime_config`: false at the first unknown key. */
  method ValidKeys(config: map<string, Value>) returns (ok: bool)
    ensures ok <==> config.Keys <= ValidTopLevelKeys
  {
    var unchecked := config.Keys;
    while unchecked != {}
      invariant unchecked <= config.Keys
      invariant forall key :: key in config.Keys && key !in unchecked ==> key in ValidTopLevelKeys
      decreases |unchecked|
    {
      var key :| key in unchecked;
      if key !in ValidTopLevelKeys {
        return false;
      }
      unchecked := unchecked - {key};
    }
    return true;
  }

  method LoadRuntimeConfig(chain: seq<Option<string>>) returns (r: Result<(map<string, Value>, Option<nat>)>)
    ensures r == RuntimeConfigOf(chain)
  {
    var found := FindConfigFile(chain);
    if found.None? {
      return Ok((map[], None));
    }
    var config := ParseYamlFile(chain[found.value].value);
    var ok := ValidKeys(config);
    if !ok {
      return Err("ValueError");
    }
    return Ok((config, found));
  }

  lemma NoConfigFile(chain: seq<Option<string>>)
    requires forall k :: 0 <= k < |chain| ==> chain[k].None?
    ensures RuntimeConfigOf(chain) == Ok((map[], None))
  {
  }

  /** A load succeeds exactly when the nearest file has only valid top-level keys, and then returns that file. */
  lemma LoadValidates(chain: seq<Option<string>>, k: nat)
    requires k < |chain| && chain[k].Some? && forall j :: 0 <= j < k ==> chain[j].None?
    ensures RuntimeConfigOf(chain).Ok? <==> ParseYaml(chain[k].value).Keys <= ValidTopLevelKeys
    ensures RuntimeConfigOf(chain).Ok? ==> RuntimeConfigOf(chain).value == (ParseYaml(chain[k].value), Some(k))
    ensures RuntimeConfigOf(chain).Err? ==> RuntimeConfigOf(chain).error == "ValueError"
  {
    NearestIs(chain, k);
  }

  /** The nearest holder is the first `Some` of the chain. */
  lemma NearestIs(chain: seq<Option<string>>, k: nat)
    requires k < |chain| && chain[k].Some? && forall j :: 0 <= j < k ==> chain[j].None?
    ensures Nearest(chain) == Some(k)
  {
  }

  // ---------------------------------------------------------------------
  // Line-level properties
  // ---------------------------------------------------------------------

  /** Reading is line by line in order: the kept lines of a concatenation are those of its parts. */
  lemma {:induction false} ConfigLinesAppend(a: seq<string>, b: seq<string>)
    ensures ConfigLines(a + b) == ConfigLines(a) + ConfigLines(b)
    decreases |b|
  {
    if |b| == 0 {
      assert a + b == a;
    } else {
      var b' := b[..|b| - 1];
      assert (a + b)[..|a + b| - 1] == a + b';
      assert b[..|b| - 1] == b';
      ConfigLinesAppend(a, b');
    }
  }

  /** One raw line is dropped exactly when blank or a comment, and otherwise kept as (indent, stripped). */
  lemma KeptLineIs(raw: string)
    ensures ConfigLines([raw]) == (if Dropped(PyStrip(raw)) then [] else [Line(Span(raw, PySpace), PyStrip(raw))])
  {
    assert [raw][..0] == [];
  }

  // ---------------------------------------------------------------------
  // Scalar properties
  // ---------------------------------------------------------------------

  /** Wrapping a quote-free text in matching quotes and unquoting gives the text back. */
  lemma QuotedRoundTrip(q: char, v: string)
    requires IsQuote(q)
    ensures Unquote([q] + v + [q]) == v
  {
    var w := [q] + v + [q];
    assert w[0] == q && w[|w| - 1] == q;
    assert w[1..|w| - 1] == v;
  }

  /** A quoted decimal is a number once unquoted; the same text without digits stays a string. */
  lemma QuotedNumberIsInt(q: char, n: int)
    requires IsQuote(q)
    ensures Scalar(Unquote([q] + IntToDecimal(n) + [q])) == VInt(n)
  {
    QuotedRoundTrip(q, IntToDecimal(n));
    IntDecimalRoundTrip(n);
  }


  // ---------------------------------------------------------------------
  // resolve_precedence
  // ---------------------------------------------------------------------

  /** The first present value of a list of layers, highest priority first. */
  function FirstPresent<T>(layers: seq<Option<T>>): (r: Option<T>)
    ensures r.None? <==> forall k :: 0 <= k < |layers| ==> layers[k].None?
  {
    if |layers| == 0 then None else if layers[0].Some? then layers[0] else FirstPresent(layers[1..])
  }

  /** CLI > env > config file > default: the first value that is not None. */
  function ResolvePrecedence<T>(cli: Option<T>, env: Option<T>, config: Option<T>, default: Option<T>): (r: Option<T>)
  {
    if cli.Some? then cli else if env.Some? then env else if config.Some? then config else default
  }

  /** The precedence rule is the first present layer of [cli, env, config, default]. */
  lemma PrecedenceIsFirstPresent<T>(cli: Option<T>, env: Option<T>, config: Option<T>, default: Option<T>)
    ensures ResolvePrecedence(cli, env, config, default) == FirstPresent([cli, env, config, default])
  {
    assert [cli, env, config, default][1..] == [env, config, default];
    assert [env, config, default][1..] == [config, default];
    assert [config, default][1..] == [default];
    assert [default][1..] == [];
    assert FirstPresent([default]) == default;
    assert FirstPresent([config, default]) == if config.Some? then config else default;
    assert FirstPresent([env, config, default]) == if env.Some? then env else FirstPresent([config, default]);
  }

  /** The result is the value of some layer, every layer above it being absent. */
  lemma {:induction false} FirstPresentIsALayer<T>(layers: seq<Option<T>>)
    ensures FirstPresent(layers).Some? ==>
      exists k :: 0 <= k < |layers| && layers[k] == FirstPresent(layers) && forall j :: 0 <= j < k ==> layers[j].None?
  {
    if |layers| > 0 && layers[0].None? {
      FirstPresentIsALayer(layers[1..]);
      if FirstPresent(layers).Some? {
        var k :| 0 <= k < |layers[1..]| && layers[1..][k] == FirstPresent(layers[1..]) && forall j :: 0 <= j < k ==> layers[1..][j].None?;
        assert layers[k + 1] == FirstPresent(layers);
        assert forall j :: 0 <= j < k + 1 ==> layers[j].None? by {
          forall j | 0 <= j < k + 1 ensures layers[j].None? {
            if j > 0 { assert layers[j] == layers[1..][j - 1]; }
          }
        }
      }
    } else if |layers| > 0 {
      assert layers[0] == FirstPresent(layers);
    }
  }

  /** A present value wins whatever it is: `VInt(0)` or `VStr("")` from the CLI beats every lower layer. */
  lemma FalsyValueWins(cli: Value, env: Option<Value>, config: Option<Value>, default: Option<Value>)
    requires cli == VInt(0) || cli == VStr("")
    ensures ResolvePrecedence(Some(cli), env, config, default) == Some(cli)
  {
  }

  // ---------------------------------------------------------------------
  // extract_workflow_models
  // ---------------------------------------------------------------------

  /** `model in VALID_MODELS` raises TypeError only for an unhashable value that passed the truthiness test. */
  predicate Unhashable(v: Value) {
    (v.VList? && |v.items| > 0) || (v.VDict? && |v.entries| > 0)
  }

  /** A workflow entry whose `model` would make the membership test raise. */
  predicate RaisesOnModel(entry: Value) {
    entry.VDict? && "model" in entry.entries && Unhashable(entry.entries["model"])
  }

  /** The model configured by a workflow entry: a dict whose `model` is one of the valid model names. */
  function ModelOf(entry: Value): (r: Option<string>)
    ensures r.Some? ==> r.value in ValidModels
  {
    if entry.VDict? && "model" in entry.entries && entry.entries["model"].VStr? && entry.entries["model"].s in ValidModels
    then Some(entry.entries["model"].s)
    else None
  }

  /** `config.get("workflows", {})`. */
  function WorkflowsOf(config: map<string, Value>): Value {
    if "workflows" in config then config["workflows"] else EmptyDict
  }

  /**
   * `extract_workflow_models`: workflow name to model for the valid
   * workflow names whose entry configures a valid model; `{}` when
   * `workflows` is not a dict; TypeError when a valid workflow's model is
   * a non-empty list or dict.
   */
  function WorkflowModels(config: map<string, Value>): (r: Result<map<string, string>>)
    ensures r.Err? ==> r.error == "TypeError" && WorkflowsOf(config).VDict?
    ensures r.Ok? ==> r.value.Keys <= ValidWorkflowNames
    ensures r.Ok? ==> forall name :: name in r.value ==> r.value[name] in ValidModels
  {
    var workflows := WorkflowsOf(config);
    if !workflows.VDict? then Ok(map[])
    else if exists name :: name in workflows.entries && name in ValidWorkflowNames && RaisesOnModel(workflows.entries[name])
    then Err("TypeError")
    else Ok(map name | name in workflows.entries && name in ValidWorkflowNames && ModelOf(workflows.entries[name]).Some?
              :: ModelOf(workflows.entries[name]).value)
  }

  /** The models the loop has collected from the workflow names `seen`. */
  function ModelsFrom(entries: map<string, Value>, seen: set<string>): map<string, string> {
    map name | name in seen && name in entries && name in ValidWorkflowNames && ModelOf(entries[name]).Some?
      :: ModelOf(entries[name]).value
  }

  lemma ModelsFromAdd(entries: map<string, Value>, seen: set<string>, name: string)
    requires name in entries && name !in seen
    ensures ModelsFrom(entries, seen + {name}) ==
      if name in ValidWorkflowNames && ModelOf(entries[name]).Some?
      then ModelsFrom(entries, seen)[name := ModelOf(entries[name]).value]
      else ModelsFrom(entries, seen)
  {
  }

  lemma ModelsFromAll(config: map<string, Value>)
    requires WorkflowsOf(config).VDict? && WorkflowModels(config).Ok?
    ensures WorkflowModels(config).value == ModelsFrom(WorkflowsOf(config).entries, WorkflowsOf(config).entries.Keys)
  {
  }

  method ExtractWorkflowModels(config: map<string, Value>) returns (r: Result<map<string, string>>)
    ensures r == WorkflowModels(config)
  {
    var workflows := WorkflowsOf(config);
    if !workflows.VDict? {
      return Ok(map[]);
    }
    var entries := workflows.entries;
    var models: map<string, string> := map[];
    var unseen := entries.Keys;
    while unseen != {}
      invariant unseen <= entries.Keys
      invariant models == ModelsFrom(entries, entries.Keys - unseen)
      invariant forall name :: name in entries && name !in unseen && name in ValidWorkflowNames ==> !RaisesOnModel(entries[name])
      decreases |unseen|
    {
      var name :| name in unseen;
      var seen := entries.Keys - unseen;
      unseen := unseen - {name};
      if name in ValidWorkflowNames && entries[name].VDict? && "model" in entries[name].entries {
        var model := entries[name].entries["model"];
        if Unhashable(model) {
          return Err("TypeError");
        }
        if model.VStr? && model.s in ValidModels {
          models := models[name := model.s];
        }
      }
      ModelsFromAdd(entries, seen, name);
      assert entries.Keys - unseen == seen + {name};
    }
    assert entries.Keys - unseen == entries.Keys;
    assert !exists name :: name in entries && name in ValidWorkflowNames && RaisesOnModel(entries[name]);
    assert WorkflowModels(config).Ok?;
    ModelsFromAll(config);
    return Ok(models);
  }

  /** The result maps exactly the valid workflows that configure a valid model, each to that model. */
  lemma {:induction false} WorkflowModelsExact(config: map<string, Value>, name: string)
    requires WorkflowModels(config).Ok?
    ensures name in WorkflowModels(config).value <==>
      WorkflowsOf(config).VDict? && name in WorkflowsOf(config).entries && name in ValidWorkflowNames
      && ModelOf(WorkflowsOf(config).entries[name]).Some?
    ensures name in WorkflowModels(config).value ==>
      WorkflowsOf(config).entries[name].entries["model"] == VStr(WorkflowModels(config).value[name])
  {
  }

  /** A `workflows` that is not a dict, or is missing, configures no model. */
  lemma NonDictWorkflows(config: map<string, Value>)
    requires !WorkflowsOf(config).VDict? || WorkflowsOf(config).entries == map[]
    ensures WorkflowModels(config) == Ok(map[])
  {
  }

  // ---------------------------------------------------------------------
  // Parser properties
  // ---------------------------------------------------------------------

  /** `partition(":")` splits at the first ':', so a ':' in the value stays in the value. */
  lemma PartitionAtFirstColon(key: string, value: string)
    requires ':' !in key
    ensures Partition(key + [':'] + value) == Some((PyStrip(key), Unquote(PyStrip(value))))
  {
    var t := key + [':'] + value;
    IndexOfAfter(key, value, ':');
    assert t[..|key|] == key;
    assert t[|key| + 1..] == value;
  }

  /** A fully quoted list item is a string scalar even when it contains ':'. */
  lemma QuotedItemIsScalar(lines: seq<Line>, i: nat, end: nat, q: char, v: string)
    requires i < end <= |lines| && IsQuote(q) && lines[i].text == "- " + ([q] + v + [q])
    ensures ListItem(lines, i, end) == (VStr(v), i + 1)
  {
    var w := [q] + v + [q];
    assert IsDash(lines[i].text) by { assert lines[i].text[..2] == "- "; }
    assert lines[i].text[2..] == w;
    NoEdgesStrip(w);
    QuotedRoundTrip(q, v);
  }

  /** The keys of the `key: value` lines among `lines[i..end]` outside list items. */
  function KeyOf(text: string): set<string> {
    if IsDash(text) then {} else match Partition(text)
      case None => {}
      case Some(kv) => {kv.0}
  }

  /** The union of `sets[i..end]`. */
  function UnionOf(sets: seq<set<string>>, i: nat, end: nat): set<string>
    requires i <= end <= |sets|
    decreases end - i
  {
    if i == end then {} else sets[i] + UnionOf(sets, i + 1, end)
  }

  lemma {:induction false} UnionOfMono(sets: seq<set<string>>, i: nat, j: nat, end: nat)
    requires i <= j <= end <= |sets|
    ensures UnionOf(sets, j, end) <= UnionOf(sets, i, end)
    decreases j - i
  {
    if i < j {
      UnionOfMono(sets, i + 1, j, end);
    }
  }

  /** The key written on each line. */
  function KeyTable(lines: seq<Line>): (r: seq<set<string>>)
    ensures |r| == |lines|
  {
    seq(|lines|, k requires 0 <= k < |lines| => KeyOf(lines[k].text))
  }

  function KeysIn(lines: seq<Line>, i: nat, end: nat): set<string>
    requires i <= end <= |lines|
  {
    UnionOf(KeyTable(lines), i, end)
  }

  /** One step adds exactly the key of its line; nothing else of the dict changes. */
  lemma DictStepKeys(lines: seq<Line>, i: nat, end: nat, acc: map<string, Value>)
    requires i < end <= |lines|
    ensures DictStep(lines, i, end, acc).0.Keys == acc.Keys + KeyOf(lines[i].text)
    ensures forall k :: k in acc && k !in KeyOf(lines[i].text) ==> DictStep(lines, i, end, acc).0[k] == acc[k]
  {
  }

  /**
   * The dict `_parse_lines` returns has no key that is not written on one
   * of its lines: nested dicts and lists never add keys at this level.
   */
  lemma {:induction false} ParsedDictKeys(lines: seq<Line>, start: nat, i: nat, end: nat, parent: int, acc: map<string, Value>)
    requires start <= i <= end <= |lines|
    ensures acc.Keys <= ParsedDict(lines, start, i, end, parent, acc).Keys <= acc.Keys + KeysIn(lines, i, end)
    decreases end - i
  {
    if i == end || (lines[i].indent <= parent && i > start) {
    } else {
      var step := DictStep(lines, i, end, acc);
      ParsedDictKeys(lines, start, step.1, end, parent, step.0);
      ParsedDictKeysStep(lines, start, i, end, parent, acc);
    }
  }

  /** One step of `ParsedDictKeys`, from the keys of the rest of the block. */
  lemma ParsedDictKeysStep(lines: seq<Line>, start: nat, i: nat, end: nat, parent: int, acc: map<string, Value>)
    requires start <= i < end <= |lines| && !(lines[i].indent <= parent && i > start)
    requires var step := DictStep(lines, i, end, acc);
      step.0.Keys <= ParsedDict(lines, start, step.1, end, parent, step.0).Keys <= step.0.Keys + KeysIn(lines, step.1, end)
    ensures acc.Keys <= ParsedDict(lines, start, i, end, parent, acc).Keys <= acc.Keys + KeysIn(lines, i, end)
  {
    var step := DictStep(lines, i, end, acc);
    var rest := ParsedDict(lines, start, step.1, end, parent, step.0);
    assert ParsedDict(lines, start, i, end, parent, acc).Keys == rest.Keys;
    DictStepKeys(lines, i, end, acc);
    KeysSkip(lines, i, step.1, end);
  }

  /** The key of line `i` and the keys from a later line on are among the keys from `i` on. */
  lemma KeysSkip(lines: seq<Line>, i: nat, next: nat, end: nat)
    requires i < next <= end <= |lines|
    ensures KeyOf(lines[i].text) + KeysIn(lines, next, end) <= KeysIn(lines, i, end)
  {
    UnionOfSkip(KeyTable(lines), i, next, end);
    assert KeyTable(lines)[i] == KeyOf(lines[i].text);
  }

  /** The set at `i` and the union from a later index on are within the union from `i` on. */
  lemma UnionOfSkip(sets: seq<set<string>>, i: nat, next: nat, end: nat)
    requires i < next <= end <= |sets|
    ensures sets[i] + UnionOf(sets, next, end) <= UnionOf(sets, i, end)
  {
    UnionOfMono(sets, i + 1, next, end);
  }

  /** A file whose every `key:` line (outside list items) names a valid top-level key always loads. */
  lemma ValidKeysLoad(chain: seq<Option<string>>, k: nat)
    requires k < |chain| && chain[k].Some? && forall j :: 0 <= j < k ==> chain[j].None?
    requires KeysIn(ConfigLines(FileLines(chain[k].value)), 0, |ConfigLines(FileLines(chain[k].value))|) <= ValidTopLevelKeys
    ensures RuntimeConfigOf(chain) == Ok((ParseYaml(chain[k].value), Some(k)))
  {
    var lines := ConfigLines(FileLines(chain[k].value));
    ParsedDictKeys(lines, 0, 0, |lines|, -1, map[]);
    LoadValidates(chain, k);
  }

  /** The dict of a "- k: v" item holds the first key and exactly the keys of the lines it absorbs. */
  lemma {:induction false} AbsorbKeysKeys(lines: seq<Line>, i: nat, end: nat, indent: int, d: map<string, Value>)
    requires i <= end <= |lines|
    ensures AbsorbKeys(lines, i, end, indent, d).0.Keys == d.Keys + KeysIn(lines, i, AbsorbKeys(lines, i, end, indent, d).1)
    decreases end - i
  {
    if i == end || lines[i].indent <= indent || IsDash(lines[i].text) {
      assert KeysIn(lines, i, i) == {};
    } else {
      var d' := WithEntry(d, lines[i].text);
      var r := AbsorbKeys(lines, i + 1, end, indent, d');
      assert AbsorbKeys(lines, i, end, indent, d) == r;
      AbsorbKeysKeys(lines, i + 1, end, indent, d');
      WithEntryKeys(d, lines[i].text);
      KeysInStep(lines, i, r.1);
      UnionAssoc(d.Keys, KeyOf(lines[i].text), KeysIn(lines, i + 1, r.1));
    }
  }

  lemma UnionAssoc<T>(a: set<T>, b: set<T>, c: set<T>)
    ensures a + b + c == a + (b + c)
  {
  }

  /** A non-dash line adds exactly its key. */
  lemma WithEntryKeys(d: map<string, Value>, text: string)
    requires !IsDash(text)
    ensures WithEntry(d, text).Keys == d.Keys + KeyOf(text)
  {
  }

  lemma KeysInStep(lines: seq<Line>, i: nat, end: nat)
    requires i < end <= |lines|
    ensures KeysIn(lines, i, end) == KeyOf(lines[i].text) + KeysIn(lines, i + 1, end)
  {
    assert KeyTable(lines)[i] == KeyOf(lines[i].text);
  }

  /**
   * A key without a value is `{}` when the next line is not deeper or there
   * is none; a list ending at the first line no deeper than the key when the
   * next line is a deeper dash; otherwise a dict over the deeper block, after
   * which parsing resumes.
   */
  lemma KeyWithoutValue(lines: seq<Line>, i: nat, end: nat, acc: map<string, Value>, key: string)
    requires i < end <= |lines| && !IsDash(lines[i].text) && Partition(lines[i].text) == Some((key, ""))
    ensures var r := DictStep(lines, i, end, acc);
      && key in r.0 && r.0 == acc[key := r.0[key]]
      && ((i + 1 == end || lines[i + 1].indent <= lines[i].indent) ==> r == (acc[key := EmptyDict], i + 1))
      && ((i + 1 < end && lines[i + 1].indent > lines[i].indent && IsDash(lines[i + 1].text)) ==>
            r.0[key].VList? && (r.1 == end || lines[r.1].indent <= lines[i].indent))
      && ((i + 1 < end && lines[i + 1].indent > lines[i].indent && !IsDash(lines[i + 1].text)) ==>
            r.0[key].VDict? && r.1 == BlockEnd(lines, i + 1, end, lines[i].indent))
  {
  }
}
