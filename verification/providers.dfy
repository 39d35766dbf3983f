/** Which LLM vendor a model name belongs to, and where the browser keeps
    that vendor's API key. Two resolvers exist in the code: the one the
    session uses before sending (conversation-provider.tsx) and the one the
    chat layout uses for the key dialog (modern-chat-layout.tsx). They
    differ on names that mention "openai" without starting with "gpt".
 */
module Providers {
  import opened Wrappers
  import opened Text

  datatype Provider = OpenAI | Gemini

  /** The provider name sent to the chat route and used in storage keys. */
  function Name(p: Provider): string {
    match p
    case OpenAI => "openai"
    case Gemini => "gemini"
  }

  /** Session-side resolution: on the lower-cased name, a "gpt" prefix or an
      "openai" substring wins over a "gemini" substring. */
  function ResolveProvider(model: string): (r: Option<Provider>)
    ensures r == Some(OpenAI) <==>
      StartsWith(ToLower(model), "gpt") || Contains(ToLower(model), "openai")
    ensures r == Some(Gemini) <==>
      !StartsWith(ToLower(model), "gpt") && !Contains(ToLower(model), "openai")
      && Contains(ToLower(model), "gemini")
  {
    var lower := ToLower(model);
    if StartsWith(lower, "gpt") || Contains(lower, "openai") then Some(OpenAI)
    else if Contains(lower, "gemini") then Some(Gemini)
    else None
  }

  /** Layout-side resolution: only a "gpt" prefix means OpenAI. */
  function ProviderFromModel(model: string): (r: Option<Provider>)
    ensures r == Some(OpenAI) <==> StartsWith(ToLower(model), "gpt")
    ensures r == Some(Gemini) <==>
      !StartsWith(ToLower(model), "gpt") && Contains(ToLower(model), "gemini")
  {
    var lower := ToLower(model);
    if StartsWith(lower, "gpt") then Some(OpenAI)
    else if Contains(lower, "gemini") then Some(Gemini)
    else None
  }

  /** The two resolvers agree on every name except those that contain
      "openai" but neither start with "gpt" nor fall back to gemini first:
      there the session says OpenAI and the layout says Gemini or nothing. */
  lemma ResolversAgree(model: string)
    ensures !Contains(ToLower(model), "openai") ==> ResolveProvider(model) == ProviderFromModel(model)
    ensures ProviderFromModel(model).Some? && ResolveProvider(model) != ProviderFromModel(model)
            ==> ProviderFromModel(model) == Some(Gemini) && ResolveProvider(model) == Some(OpenAI)
    ensures ProviderFromModel(model) == Some(OpenAI) ==> ResolveProvider(model) == Some(OpenAI)
  {
  }

  /** A name that carries both markers resolves to OpenAI in the session
      but to Gemini in the layout (unless it starts with "gpt"). */
  lemma OpenAIWinsOverGemini(model: string)
    requires Contains(ToLower(model), "openai") && Contains(ToLower(model), "gemini")
    ensures ResolveProvider(model) == Some(OpenAI)
    ensures !StartsWith(ToLower(model), "gpt") ==> ProviderFromModel(model) == Some(Gemini)
  {
  }

  /** An "openai" name without a "gpt" prefix or "gemini" is known to the
      session and unknown to the key dialog. */
  lemma OpenAIOnlyInSession(model: string)
    requires Contains(ToLower(model), "openai")
    requires !StartsWith(ToLower(model), "gpt") && !Contains(ToLower(model), "gemini")
    ensures ResolveProvider(model) == Some(OpenAI)
    ensures ProviderFromModel(model) == None
  {
  }

  /** An "openai" name without a "gpt" prefix or "gemini": the session finds
      a provider, the key dialog does not. */
  lemma OpenAINameUnknownToLayout(model: string)
    requires model == "OpenAI-o1"
    ensures ResolveProvider(model) == Some(OpenAI)
    ensures ProviderFromModel(model) == None
  {
    var lower := ToLower(model);
    assert lower == "openai-o1";
    assert OccursAt(lower, "openai", 0);
    assert !StartsWith(lower, "gpt") by { assert lower[0] != 'g'; }
    NotContainsAbsentChar(lower, "gemini", 'g');
  }

  /** A pattern that holds a character the text lacks cannot occur in it. */
  lemma NotContainsAbsentChar(s: string, p: string, c: char)
    requires c in p && c !in s
    ensures !Contains(s, p)
  {
  }

  /** Each provider's own name resolves back to it in both resolvers. */
  lemma NameResolves(p: Provider)
    ensures ResolveProvider(Name(p)) == Some(p)
    ensures ProviderFromModel(Name(p)) == (if p == Gemini then Some(Gemini) else None)
  {
    match p
    case OpenAI => OpenAINameResolves(Name(p));
    case Gemini => GeminiNameResolves(Name(p));
  }

  lemma OpenAINameResolves(n: string)
    requires n == "openai"
    ensures ResolveProvider(n) == Some(OpenAI)
    ensures ProviderFromModel(n) == None
  {
    ToLowerNoCapitals(n);
    OpenAIMarkers(n);
  }

  /** "openai" contains itself, but has no "gpt" prefix and no "gemini". */
  lemma OpenAIMarkers(n: string)
    requires n == "openai"
    ensures !StartsWith(n, "gpt") && Contains(n, "openai") && !Contains(n, "gemini")
  {
    assert OccursAt(n, "openai", 0);
    assert n[0] != 'g';
    NotContainsAbsentChar(n, "gemini", 'g');
  }

  lemma GeminiNameResolves(n: string)
    requires n == "gemini"
    ensures ResolveProvider(n) == Some(Gemini)
    ensures ProviderFromModel(n) == Some(Gemini)
  {
    ToLowerNoCapitals(n);
    GeminiMarkers(n);
  }

  /** "gemini" has no "gpt" prefix and no "openai", but contains itself. */
  lemma GeminiMarkers(n: string)
    requires n == "gemini"
    ensures !StartsWith(n, "gpt") && !Contains(n, "openai") && Contains(n, "gemini")
  {
    assert OccursAt(n, "gemini", 0);
    assert n[1] != 'p';
    NotContainsAbsentChar(n, "openai", 'o');
  }

  /** `ai-api-key:<provider>`, the local-storage entry for a provider. */
  function StorageKey(p: Provider): string {
    "ai-api-key:" + Name(p)
  }

  /** Different providers never share a storage entry. */
  lemma StorageKeysDistinct(p: Provider, q: Provider)
    ensures StorageKey(p) == StorageKey(q) <==> p == q
  {
    if p != q {
      assert StorageKey(p)[11] != StorageKey(q)[11];
    }
  }

  /** The key attached to a request: the stored value for the resolved
      provider, trimmed, when it is not blank; otherwise none. */
  function ResolveKey(store: map<string, string>, provider: Option<Provider>): (r: Option<string>)
    ensures r.Some? <==>
      provider.Some? && StorageKey(provider.value) in store && !IsBlank(store[StorageKey(provider.value)])
    ensures r.Some? ==> r.value == Trim(store[StorageKey(provider.value)])
    ensures r.Some? ==> r.value != [] && !IsSpace(r.value[0]) && !IsSpace(r.value[|r.value| - 1])
  {
    match provider
    case None => None
    case Some(p) =>
      var key := StorageKey(p);
      if key in store && store[key] != [] && !IsBlank(store[key]) then Some(Trim(store[key])) else None
  }
}
