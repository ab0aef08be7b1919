/**
 * The settings webview: one editable form per settings scope (the repo's
 * and the user's `.agentize.local.yaml`), each with a provider choice, a
 * model field, the backend currently configured, an inline status and a
 * save button.  Loading shows the backend the extension read from the file;
 * saving posts `provider:model` back to the extension.
 */
module SettingsWebview {
  import opened Wrappers
  import opened Text
  import opened ViewHelpers
  import opened PlannerConfig

  /** The tone of an inline status: 'info', 'error' or 'success'. */
  datatype Tone = Info | Failure | Success

  /** A backend spec split into its provider and model; both empty when it does not split. */
  datatype BackendParts = BackendParts(provider: string, model: string)

  const NoParts := BackendParts("", "")

  // ---------------------------------------------------------------------
  // splitBackend
  // ---------------------------------------------------------------------

  /** `splitBackend`: the text around the first ':' of the quote-stripped spec, unless that ':' is first or last. */
  function SplitBackend(backend: string): BackendParts {
    var t := StripQuotes(backend);
    match IndexOf(t, ':')
    case None => NoParts
    case Some(k) => if k == 0 || k >= |t| - 1 then NoParts else BackendParts(t[..k], t[k + 1..])
  }

  /**
   * A split spec has a non-empty provider without ':' and a non-empty
   * model, which put back together around ':' give the quote-stripped spec;
   * otherwise both parts are empty.
   */
  lemma SplitBackendSpec(backend: string)
    ensures var r := SplitBackend(backend);
      && (r.provider == "" <==> r.model == "")
      && (r != NoParts ==> ':' !in r.provider && StripQuotes(backend) == r.provider + ":" + r.model)
  {
    var t := StripQuotes(backend);
    IndexOfFirst(t, ':');
    if SplitBackend(backend) != NoParts {
      SliceAround(t, IndexOf(t, ':').value);
    }
  }

  /** Every way of writing the quote-stripped spec as provider ':' model, with a colon-free provider, is the split. */
  lemma SplitBackendOf(backend: string, provider: string, model: string)
    requires provider != [] && model != [] && ':' !in provider
    requires StripQuotes(backend) == provider + ":" + model
    ensures SplitBackend(backend) == BackendParts(provider, model)
  {
    var t := StripQuotes(backend);
    IndexOfAfter(provider, model, ':');
    assert t[..|provider|] == provider && t[|provider| + 1..] == model;
  }

  /** For an unquoted spec the extension accepts, the webview splits it where the extension does. */
  lemma SplitBackendAgrees(spec: string)
    requires IsValidBackendSpec(spec) && !QuoteWrapped(JsTrim(spec))
    ensures var t := JsTrim(spec);
      var k := IndexOf(t, ':').value;
      SplitBackend(spec) == BackendParts(t[..k], t[k + 1..]) && t[..k] != [] && t[k + 1..] != []
  {
    var t := JsTrim(spec);
    var k := IndexOf(t, ':').value;
    BackendSpecSpec(spec, "a", "b");
    assert StripQuotes(spec) == t;
    SplitBackendOf(spec, t[..k], t[k + 1..]);
  }

  /** The webview splits specs the extension rejects: whitespace inside a part is kept. */
  lemma SplitBackendLooser()
    ensures SplitBackend("a b:c") == BackendParts("a b", "c") && !IsValidBackendSpec("a b:c")
  {
    var s := "a b:c";
    StripByNoEdges(s, JsSpace);
    assert !QuoteWrapped(s);
    assert s == "a b" + ":" + "c";
    SplitBackendOf(s, "a b", "c");
    IndexOfAfter("a b", "c", ':');
    assert s[..3] == "a b" && IsJsSpace(s[..3][1]);
  }

  // ---------------------------------------------------------------------
  // applyBackend
  // ---------------------------------------------------------------------

  const NotSet := "Not set"

  /** What `applyBackend` shows: the provider selected, the model entered and the current-backend text. */
  datatype BackendView = BackendView(selected: string, modelText: string, current: string)

  /** The view of a loaded backend; an absent or empty one clears the form. */
  function ShownBackend(backend: Option<string>): BackendView {
    if backend.None? || backend.value == "" then BackendView("", "", NotSet)
    else
      var r := SplitBackend(backend.value);
      BackendView(r.provider, r.model, if r.provider != "" && r.model != "" then r.provider + ":" + r.model else NotSet)
  }

  /**
   * The current backend reads 'Not set' exactly when there is no split;
   * otherwise it is the quote-stripped spec, the selected provider and
   * the model text around ':'.
   */
  lemma ShownBackendSpec(backend: Option<string>)
    ensures var v := ShownBackend(backend);
      && (v.current == NotSet <==> v.selected == "" && v.modelText == "")
      && (v.current != NotSet ==>
            && backend.Some? && SplitBackend(backend.value) == BackendParts(v.selected, v.modelText)
            && v.current == StripQuotes(backend.value) == v.selected + ":" + v.modelText)
  {
    if backend.Some? && backend.value != "" {
      SplitBackendSpec(backend.value);
      var r := SplitBackend(backend.value);
      if r != NoParts {
        assert (r.provider + ":" + r.model)[|r.provider|] == ':';
        assert ':' in r.provider + ":" + r.model;
        assert ':' !in NotSet;
      }
    }
  }

  /** `ensureProviderOption`: a non-empty provider not offered yet is added as a custom option. */
  function WithOption(options: seq<string>, provider: string): (r: seq<string>) {
    if provider == "" || provider in options then options else options + [provider]
  }

  /** Existing options stay in place, a non-empty provider ends up offered, and no option is doubled. */
  lemma WithOptionSpec(options: seq<string>, provider: string)
    ensures var r := WithOption(options, provider);
      && r[..|options|] == options && |r| <= |options| + 1
      && (provider != "" ==> provider in r)
      && (provider == "" || provider in options ==> r == options)
      && ((forall i, j :: 0 <= i < j < |options| ==> options[i] != options[j])
            ==> (forall i, j :: 0 <= i < j < |r| ==> r[i] != r[j]))
  {
    var r := WithOption(options, provider);
    assert r[..|options|] == options;
    if r != options {
      assert r[|options|] == provider;
    }
  }

  // ---------------------------------------------------------------------
  // saveScope
  // ---------------------------------------------------------------------

  /** What `saveScope` does with the form's values: refuse with a message, or post a backend. */
  datatype SaveStep = Rejected(message: string) | Posted(backend: string)

  /**
   * A missing provider is reported before a missing model; with both
   * present the posted backend is the trimmed provider, ':', and the
   * trimmed model.
   */
  function SaveStepOf(providerValue: string, modelValue: string): (s: SaveStep)
    ensures s.Posted? <==> JsTrim(providerValue) != "" && JsTrim(modelValue) != ""
    ensures JsTrim(providerValue) == "" ==> s == Rejected("Select a provider.")
    ensures JsTrim(providerValue) != "" && JsTrim(modelValue) == "" ==> s == Rejected("Enter a model name.")
    ensures s.Posted? ==> s.backend == JsTrim(providerValue) + ":" + JsTrim(modelValue)
  {
    var provider := JsTrim(providerValue);
    var model := JsTrim(modelValue);
    if provider == "" then Rejected("Select a provider.")
    else if model == "" then Rejected("Enter a model name.")
    else Posted(provider + ":" + model)
  }

  /** A posted backend is already trimmed. */
  lemma PostedTrimmed(providerValue: string, modelValue: string)
    requires SaveStepOf(providerValue, modelValue).Posted?
    ensures JsTrim(SaveStepOf(providerValue, modelValue).backend) == SaveStepOf(providerValue, modelValue).backend
  {
    var p := JsTrim(providerValue);
    var m := JsTrim(modelValue);
    var b := p + ":" + m;
    StripByEdges(providerValue, JsSpace);
    StripByEdges(modelValue, JsSpace);
    assert b[0] == p[0] && b[|b| - 1] == m[|m| - 1];
    StripByNoEdges(b, JsSpace);
  }

  /** A posted backend with a colon-free provider and no outer quotes splits back into the trimmed values. */
  lemma PostedSplitsBack(providerValue: string, modelValue: string)
    requires SaveStepOf(providerValue, modelValue).Posted?
    requires ':' !in JsTrim(providerValue) && !QuoteWrapped(SaveStepOf(providerValue, modelValue).backend)
    ensures SplitBackend(SaveStepOf(providerValue, modelValue).backend)
      == BackendParts(JsTrim(providerValue), JsTrim(modelValue))
  {
    PostedTrimmed(providerValue, modelValue);
    SplitBackendOf(SaveStepOf(providerValue, modelValue).backend, JsTrim(providerValue), JsTrim(modelValue));
  }

  /** A posted backend whose parts hold no whitespace, with a colon-free provider, passes the extension's check. */
  lemma PostedIsValid(providerValue: string, modelValue: string)
    requires SaveStepOf(providerValue, modelValue).Posted?
    requires ':' !in JsTrim(providerValue) && NoJsSpace(JsTrim(providerValue)) && NoJsSpace(JsTrim(modelValue))
    ensures IsValidBackendSpec(SaveStepOf(providerValue, modelValue).backend)
  {
    BackendSpecSpec("", JsTrim(providerValue), JsTrim(modelValue));
  }

  /** A loaded backend that splits into non-empty parts is shown as those parts. */
  lemma ShownSplit(b: string, provider: string, model: string)
    requires SplitBackend(b) == BackendParts(provider, model) && provider != "" && model != ""
    requires b == provider + ":" + model
    ensures ShownBackend(Some(b)) == BackendView(provider, model, b)
  {
  }

  /**
   * Save, then reload: a backend posted from the form, written by the
   * extension into a settings file and read back from it, shows the same
   * provider and model again.
   */
  lemma SaveReloadShowsSaved(content: string, providerValue: string, modelValue: string, scope: Scope, hasWorkspace: bool)
    requires SaveStepOf(providerValue, modelValue).Posted?
    requires ':' !in JsTrim(providerValue) && NoJsSpace(JsTrim(providerValue)) && NoJsSpace(JsTrim(modelValue))
    requires '#' !in SaveStepOf(providerValue, modelValue).backend
    requires !QuoteWrapped(SaveStepOf(providerValue, modelValue).backend)
    requires PlainLines(content)
    ensures var b := SaveStepOf(providerValue, modelValue).backend;
      var saved := SaveBackendSetting(content, b, scope, hasWorkspace);
      && (saved.Ok? <==> scope == Global || hasWorkspace)
      && (saved.Ok? ==> ShownBackend(PlannerBackend(saved.value)) == BackendView(JsTrim(providerValue), JsTrim(modelValue), b))
  {
    var b := SaveStepOf(providerValue, modelValue).backend;
    PostedIsValid(providerValue, modelValue);
    PostedSplitsBack(providerValue, modelValue);
    PostedTrimmed(providerValue, modelValue);
    SaveThenLoad(content, b, scope, hasWorkspace);
    ShownSplit(b, JsTrim(providerValue), JsTrim(modelValue));
  }

  // ---------------------------------------------------------------------
  // One scope's form
  // ---------------------------------------------------------------------

  /** The `settings/save` message posted to the extension. */
  datatype SaveRequest = SaveRequest(scope: Scope, backend: string)

  /** The providers every provider select offers. */
  const Providers: seq<string> := ["claude", "openai", "codex", "cursor", "kimi"]

  class SettingsForm {
    const scope: Scope
    /** The values of the provider select's options, the placeholder '' first. */
    var options: seq<string>
    var selected: string
    var modelText: string
    /** The "Current backend" text. */
    var current: string
    var status: string
    var tone: Tone
    var saveDisabled: bool
    /** The messages posted to the extension so far. */
    var posted: seq<SaveRequest>

    /** The form as first rendered, with `buildProviderSelect` filling the provider select. */
    constructor(scope: Scope)
      ensures this.scope == scope && options == [""] + Providers && selected == "" && modelText == ""
      ensures current == NotSet && status == "" && tone == Info && !saveDisabled && posted == []
    {
      this.scope := scope;
      options := [""] + Providers;
      selected := "";
      modelText := "";
      current := NotSet;
      status := "";
      tone := Info;
      saveDisabled := false;
      posted := [];
    }

    /** `applyBackend`: show a loaded backend, offering a custom provider when needed. */
    method ApplyBackend(backend: Option<string>)
      modifies this
      ensures BackendView(selected, modelText, current) == ShownBackend(backend)
      ensures options == if backend.Some? && backend.value != ""
        then WithOption(old(options), SplitBackend(backend.value).provider) else old(options)
      ensures status == old(status) && tone == old(tone) && saveDisabled == old(saveDisabled) && posted == old(posted)
    {
      if backend.None? || backend.value == "" {
        selected := "";
        modelText := "";
        current := NotSet;
        return;
      }
      var parts := SplitBackend(backend.value);
      if parts.provider != "" && parts.provider !in options {
        options := options + [parts.provider];
      }
      selected := parts.provider;
      modelText := parts.model;
      current := if parts.provider != "" && parts.model != "" then parts.provider + ":" + parts.model else NotSet;
    }

    /** `saveScope`: refuse with an inline error, or post the backend and disable the button. */
    method SaveScope()
      modifies this
      ensures options == old(options) && selected == old(selected) && modelText == old(modelText) && current == old(current)
      ensures match SaveStepOf(old(selected), old(modelText))
        case Rejected(message) =>
          status == message && tone == Failure && saveDisabled == old(saveDisabled) && posted == old(posted)
        case Posted(backend) =>
          status == "Saving..." && tone == Info && saveDisabled && posted == old(posted) + [SaveRequest(scope, backend)]
    {
      var provider := JsTrim(selected);
      var model := JsTrim(modelText);
      if provider == "" {
        status, tone := "Select a provider.", Failure;
        return;
      }
      if model == "" {
        status, tone := "Enter a model name.", Failure;
        return;
      }
      var backend := provider + ":" + model;
      status, tone := "Saving...", Info;
      saveDisabled := true;
      posted := posted + [SaveRequest(scope, backend)];
    }
  }
}
