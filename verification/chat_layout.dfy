/** The chat page around the message list (modern-chat-layout.tsx): the
    model picker and its API-key dialog, the choice between spinner,
    welcome screen and message list, and the entries of the history drawer.

    `localStorage` is a map from entry name to stored text; the dialog's
    toast and the focus handling are left out.
 */
module ChatLayout {
  import opened Wrappers
  import opened Text
  import opened Providers
  import opened UiMessages
  import opened ChatDisplay
  import S = Session

  /** The layout's own state: the picked model, the model whose key the
      dialog asks for, whether the dialog is open, and what is typed in it. */
  datatype Layout = Layout(
    selectedModel: string,
    pendingModel: Option<string>,
    dialogOpen: bool,
    keyInput: string)

  /** The model picked when the page opens. */
  const InitialModel: string := "gpt-4o-mini"

  /** `!getItem(...)` is false only for a stored non-empty string. */
  predicate HasStoredKey(store: map<string, string>, p: Provider) {
    StorageKey(p) in store && store[StorageKey(p)] != []
  }

  /** Whether picking `model` should ask for a key: its provider is known to
      the layout and nothing usable is stored for it. */
  predicate NeedsKey(store: map<string, string>, model: string) {
    ProviderFromModel(model).Some? && !HasStoredKey(store, ProviderFromModel(model).value)
  }

  /** The page as first shown: the initial model, and the dialog open for it
      when its key is missing (the effect on `selectedModel`). */
  function Mount(store: map<string, string>): (r: Layout)
    ensures r.selectedModel == InitialModel && r.keyInput == []
    ensures r.dialogOpen <==> !HasStoredKey(store, OpenAI)
    ensures r.dialogOpen ==> r.pendingModel == Some(InitialModel)
    ensures !r.dialogOpen ==> r.pendingModel == None
  {
    var l := Layout(InitialModel, None, false, []);
    InitialModelIsOpenAI(InitialModel);
    if NeedsKey(store, InitialModel) then l.(pendingModel := Some(InitialModel), dialogOpen := true) else l
  }

  /** The initial model belongs to OpenAI for the layout. */
  lemma InitialModelIsOpenAI(m: string)
    requires m == "gpt-4o-mini"
    ensures ProviderFromModel(m) == Some(OpenAI)
  {
    ToLowerNoCapitals(m);
    assert m[..3] == "gpt";
  }

  /** `onModelChange`: the model is always taken; the dialog opens, empty
      and aimed at that model, exactly when the model needs a key.
      Otherwise nothing else changes. The effect that follows the change of
      `selectedModel` repeats the same test and adds nothing. */
  function ModelChange(l: Layout, store: map<string, string>, model: string): (r: Layout)
    ensures r.selectedModel == model
    ensures NeedsKey(store, model) ==> r.dialogOpen && r.pendingModel == Some(model) && r.keyInput == []
    ensures !NeedsKey(store, model) ==> r == l.(selectedModel := model)
  {
    var l' := l.(selectedModel := model);
    if NeedsKey(store, model) then l'.(pendingModel := Some(model), keyInput := [], dialogOpen := true) else l'
  }

  /** `onManageKey`: the dialog opens, prefilled with the stored key of the
      picked model's provider, or empty and unaimed when the layout knows no
      provider for it. */
  function ManageKey(l: Layout, store: map<string, string>): (r: Layout)
    ensures r.dialogOpen && r.selectedModel == l.selectedModel
    ensures ProviderFromModel(l.selectedModel).None? ==> r.pendingModel == None && r.keyInput == []
    ensures ProviderFromModel(l.selectedModel).Some? ==>
      && r.pendingModel == Some(l.selectedModel)
      && (StorageKey(ProviderFromModel(l.selectedModel).value) in store ==>
            r.keyInput == store[StorageKey(ProviderFromModel(l.selectedModel).value)])
      && (StorageKey(ProviderFromModel(l.selectedModel).value) !in store ==> r.keyInput == [])
  {
    match ProviderFromModel(l.selectedModel)
    case Some(p) =>
      var key := StorageKey(p);
      l.(keyInput := if key in store then store[key] else [], pendingModel := Some(l.selectedModel), dialogOpen := true)
    case None => l.(keyInput := [], pendingModel := None, dialogOpen := true)
  }

  /** "Cancel": the dialog closes and forgets its model. */
  function Cancel(l: Layout): (r: Layout)
    ensures !r.dialogOpen && r.pendingModel == None
    ensures r.selectedModel == l.selectedModel && r.keyInput == l.keyInput
  {
    l.(dialogOpen := false, pendingModel := None)
  }

  /** The model whose key is being saved: `pendingModel || selectedModel`. */
  function KeyModel(l: Layout): (m: string)
    ensures m == l.selectedModel || Some(m) == l.pendingModel
    ensures l.pendingModel.Some? && l.pendingModel.value != [] ==> m == l.pendingModel.value
  {
    if l.pendingModel.Some? && l.pendingModel.value != [] then l.pendingModel.value else l.selectedModel
  }

  /** The layout and the storage after "Save key". */
  datatype Saved = Saved(layout: Layout, store: map<string, string>)

  /** "Save key": refused (nothing changes) when the key's model has no
      provider or the typed key is blank; otherwise the trimmed key is
      stored under the provider's entry and the dialog closes. */
  function SaveKey(l: Layout, store: map<string, string>): (r: Saved)
    ensures ProviderFromModel(KeyModel(l)).None? || IsBlank(l.keyInput) ==> r == Saved(l, store)
    ensures ProviderFromModel(KeyModel(l)).Some? && !IsBlank(l.keyInput) ==>
      && r.store == store[StorageKey(ProviderFromModel(KeyModel(l)).value) := Trim(l.keyInput)]
      && r.layout == l.(dialogOpen := false, pendingModel := None)
  {
    match ProviderFromModel(KeyModel(l))
    case None => Saved(l, store)
    case Some(p) =>
      if IsBlank(l.keyInput) then Saved(l, store)
      else Saved(l.(dialogOpen := false, pendingModel := None), store[StorageKey(p) := Trim(l.keyInput)])
  }

  /** A saved key is what the session later attaches for that provider:
      it is stored trimmed, so resolving it gives the trimmed input back;
      the other provider's entry is untouched. */
  lemma SavedKeyResolves(l: Layout, store: map<string, string>, q: Provider)
    requires ProviderFromModel(KeyModel(l)).Some? && !IsBlank(l.keyInput)
    ensures var p := ProviderFromModel(KeyModel(l)).value;
      && ResolveKey(SaveKey(l, store).store, Some(p)) == Some(Trim(l.keyInput))
      && (q != p ==> ResolveKey(SaveKey(l, store).store, Some(q)) == ResolveKey(store, Some(q)))
  {
    var p := ProviderFromModel(KeyModel(l)).value;
    assert SaveKey(l, store).store == store[StorageKey(p) := Trim(l.keyInput)];
    StoredKeyResolves(store, p, l.keyInput);
    if q != p {
      OtherKeyUntouched(store, p, q, Trim(l.keyInput));
    }
  }

  /** Storing the trimmed form of a non-blank key makes it resolvable as is. */
  lemma StoredKeyResolves(store: map<string, string>, p: Provider, key: string)
    requires !IsBlank(key)
    ensures ResolveKey(store[StorageKey(p) := Trim(key)], Some(p)) == Some(Trim(key))
  {
    TrimIdempotent(key);
    var k := StorageKey(p);
    var t := store[k := Trim(key)];
    assert t[k] == Trim(key);
  }

  /** Writing one provider's entry leaves the other's resolution alone. */
  lemma OtherKeyUntouched(store: map<string, string>, p: Provider, q: Provider, v: string)
    requires p != q
    ensures ResolveKey(store[StorageKey(p) := v], Some(q)) == ResolveKey(store, Some(q))
  {
    StorageKeysDistinct(p, q);
    var t := store[StorageKey(p) := v];
    assert StorageKey(q) in t <==> StorageKey(q) in store;
    assert StorageKey(q) in store ==> t[StorageKey(q)] == store[StorageKey(q)];
  }

  /** After a successful save, picking any model of the same provider no
      longer opens the dialog. */
  lemma SaveThenNoDialog(l: Layout, store: map<string, string>, model: string)
    requires ProviderFromModel(KeyModel(l)).Some? && !IsBlank(l.keyInput)
    requires ProviderFromModel(model) == ProviderFromModel(KeyModel(l))
    ensures !SaveKey(l, store).layout.dialogOpen
    ensures !ModelChange(SaveKey(l, store).layout, SaveKey(l, store).store, model).dialogOpen
  {
  }

  /** A saved key reaches the request whenever the session resolves the
      same provider, which is always the case for names without "openai". */
  lemma SavedKeyReachesSession(l: Layout, store: map<string, string>)
    requires ProviderFromModel(KeyModel(l)).Some? && !IsBlank(l.keyInput)
    requires !Contains(ToLower(KeyModel(l)), "openai")
    ensures ResolveKey(SaveKey(l, store).store, ResolveProvider(KeyModel(l))) == Some(Trim(l.keyInput))
  {
    ResolversAgree(KeyModel(l));
    SavedKeyResolves(l, store, ProviderFromModel(KeyModel(l)).value);
  }

  /** What fills the message area. */
  datatype View = Spinner | Welcome | MessageList

  /** `showWelcome`. */
  predicate ShowWelcome(messages: seq<UIMessage>, loading: bool) {
    |messages| == 0 && !loading
  }

  /** The message area: a spinner while messages load or the first
      conversation is being created, else the welcome screen, else the
      list. */
  function MainView(messageLoading: bool, creating: bool, messages: seq<UIMessage>, status: S.Status): (v: View)
    ensures v == Welcome ==> |messages| == 0 && !S.IsLoading(status)
    ensures !(messageLoading || creating) ==> (v == Welcome <==> |messages| == 0 && !S.IsLoading(status))
    ensures v == Spinner <==> messageLoading || creating
    ensures |messages| > 0 ==> v != Welcome
  {
    if messageLoading || creating then Spinner
    else if ShowWelcome(messages, S.IsLoading(status)) then Welcome
    else MessageList
  }

  /** While a request is in flight the list (or the spinner) is shown, never
      the welcome screen, so the typing dots the list would show are not
      hidden behind it; and the welcome screen never coexists with them. */
  lemma WelcomeExcludesTyping(messageLoading: bool, creating: bool, messages: seq<UIMessage>, status: S.Status, streaming: bool)
    ensures MainView(messageLoading, creating, messages, status) == Welcome ==>
      !ShowTypingIndicator(S.IsLoading(status), streaming, messages)
    ensures ShowTypingIndicator(S.IsLoading(status), streaming, messages) ==>
      MainView(messageLoading, creating, messages, status) != Welcome
    ensures !messageLoading && !creating && S.IsLoading(status) ==>
      MainView(messageLoading, creating, messages, status) == MessageList
  {
  }

  /** One entry of the history drawer; the time stamp is left out. */
  datatype HistoryEntry = HistoryEntry(id: string, title: Option<string>, description: Option<string>)

  /** `chatHistory`: one entry per conversation, in order. */
  function ChatHistory(cs: seq<S.Conversation>): (h: seq<HistoryEntry>)
    ensures |h| == |cs|
    ensures forall i :: 0 <= i < |h| ==>
      h[i].id == cs[i].id && h[i].title == cs[i].title && h[i].description == cs[i].description
  {
    seq(|cs|, i requires 0 <= i < |cs| => HistoryEntry(cs[i].id, cs[i].title, cs[i].description))
  }

  /** The drawer lists a conversation iff the session holds it, and no id
      appears twice in the drawer when none does in the session. */
  lemma HistoryMirrorsSession(cs: seq<S.Conversation>, id: string)
    ensures (exists i :: 0 <= i < |ChatHistory(cs)| && ChatHistory(cs)[i].id == id) <==> S.HasId(cs, id)
    ensures S.DistinctIds(cs) ==>
      forall i, j :: 0 <= i < j < |cs| ==> ChatHistory(cs)[i].id != ChatHistory(cs)[j].id
  {
    var h := ChatHistory(cs);
    if S.HasId(cs, id) {
      var i :| 0 <= i < |cs| && cs[i].id == id;
      assert h[i].id == id;
    }
  }
}
