/** The chat session behind the AI manager page (the conversation
    provider): the current conversation, the messages on screen, the
    conversation list, the chat status and the input box, and the writes it
    issues to the two stores.

    Each handler of the provider is one function from the session record
    to the next record. The writes are collected in a log instead of being
    performed; their outcomes never flow back into the session, as in the
    source, which fires them without waiting. React's scheduling is not
    modelled: the ref that mirrors the current id is the current id itself.
 */
module Session {
  import opened Wrappers
  import opened Text
  import opened Uuid
  import opened Providers
  import opened UiMessages
  import opened JsonView
  import CS = ConversationsService
  import MS = MessagesService
  import Route = ChatRoute
  import ChatDisplay

  /** The chat hook's status. */
  datatype Status = Ready | Submitted | Streaming | Errored

  /** A present, non-empty string: what `if (x)` accepts for a
      `string | null | undefined`. */
  predicate Truthy(x: Option<string>) {
    x.Some? && x.value != []
  }

  /** A conversation in the history list. `title` and `description` may be
      null when they come from the database. */
  datatype Conversation = Conversation(
    id: string,
    title: Option<string>,
    messages: seq<UIMessage>,
    previousResponseId: Option<string>,
    description: Option<string>)

  /** The two fields of the signed-in user's profile the session reads. */
  datatype Profile = Profile(userId: Option<string>, roleName: Option<string>)

  /** The session. `urlId` is the `conversationId` query parameter. */
  datatype State = State(
    currentId: Option<string>,
    messages: seq<UIMessage>,
    conversations: seq<Conversation>,
    status: Status,
    input: string,
    errorMessage: Option<string>,
    urlId: Option<string>)

  /** A write issued to one of the stores. */
  datatype Write =
    | CreateConversationWrite(conversation: CS.CreateInput)
    | CreateMessageWrite(message: MS.CreateMessageInput)
    | UpdateConversationWrite(update: CS.UpdateInput)

  /** `x ?? null` on a value the session holds as an option. */
  function NullOr(x: Option<string>): Nullable<string> {
    match x
    case Some(v) => Val(v)
    case None => Null
  }

  // ---------------------------------------------------------------------
  // System prompt

  const KnowledgeBaseHeader: string := "\n\n--- Knowledge Base Context ---\n"

  /** The base prompt, followed by the knowledge-base context when one was
      loaded and is not empty. */
  function EnhancedSystemPrompt(base: string, context: Option<string>): (r: string)
    ensures IsPrefix(base, r)
    ensures r == base <==> !Truthy(context)
    ensures Truthy(context) ==> EndsWith(r, context.value)
  {
    if Truthy(context) then base + KnowledgeBaseHeader + context.value else base
  }

  /** A text is blank only if each of its pieces is. */
  lemma BlankPrefix(a: string, b: string)
    requires IsBlank(a + b)
    ensures IsBlank(a)
  {
    assert AllSpace(a + b);
    forall k | 0 <= k < |a|
      ensures IsSpace(a[k])
    {
      assert (a + b)[k] == a[k];
    }
  }

  /** The route uses the prompt the session sends, whenever the base prompt
      is not blank: the knowledge-base context reaches the model. */
  lemma RouteKeepsEnhancedPrompt(base: string, context: Option<string>, fallback: string)
    requires !IsBlank(base)
    ensures Route.EffectiveSystemPrompt(Route.Str(EnhancedSystemPrompt(base, context)), fallback)
         == EnhancedSystemPrompt(base, context)
  {
    var r := EnhancedSystemPrompt(base, context);
    var rest := r[|base|..];
    assert r == base + rest;
    if IsBlank(r) {
      BlankPrefix(base, rest);
    }
  }

  // ---------------------------------------------------------------------
  // Conversation id from the URL

  /** Whether the current id, if any, has the UUID shape. */
  predicate CurrentIdValid(s: State) {
    s.currentId.None? || IsUuid(s.currentId.value)
  }

  /** The mount effect: a `conversationId` parameter with the UUID shape
      becomes the current id; any other non-empty value clears the id, the
      messages and the parameter. */
  function LoadIdFromUrl(s: State): (r: State)
    ensures Truthy(s.urlId) ==> CurrentIdValid(r)
    ensures Truthy(s.urlId) ==> (r.currentId == s.urlId <==> IsUuid(s.urlId.value))
    ensures Truthy(s.urlId) && !IsUuid(s.urlId.value) ==> r.currentId.None? && r.messages == [] && r.urlId.None?
    ensures !Truthy(s.urlId) ==> r == s
    ensures r.conversations == s.conversations && r.input == s.input && r.status == s.status
  {
    if !Truthy(s.urlId) then s
    else if IsUuid(s.urlId.value) then s.(currentId := s.urlId)
    else s.(currentId := None, messages := [], urlId := None)
  }

  // ---------------------------------------------------------------------
  // Loading the conversation list

  /** A stored conversation as a history entry, with no messages yet. */
  function FromRow(row: CS.ConversationRow): Conversation {
    Conversation(row.id, row.title, [], row.previousResponseId, row.description)
  }

  /** The list effect: without a user nothing is asked; a failure is only
      logged; a non-empty list replaces the local one; an empty one clears
      the current id. */
  function ConversationsLoaded(s: State, profile: Profile, loaded: Result<seq<CS.ConversationRow>, string>): (r: State)
    ensures !Truthy(profile.userId) || loaded.Failure? ==> r == s
    ensures Truthy(profile.userId) && loaded.Success? && |loaded.value| > 0 ==>
      && r == s.(conversations := r.conversations)
      && |r.conversations| == |loaded.value|
      && forall i :: 0 <= i < |r.conversations| ==>
           var row := loaded.value[i];
           r.conversations[i] == Conversation(row.id, row.title, [], row.previousResponseId, row.description)
    ensures Truthy(profile.userId) && loaded.Success? && |loaded.value| == 0 ==> r == s.(currentId := None)
  {
    if !Truthy(profile.userId) then s
    else match loaded
      case Failure(_) => s
      case Success(rows) =>
        if |rows| > 0 then s.(conversations := seq(|rows|, i requires 0 <= i < |rows| => FromRow(rows[i])))
        else s.(currentId := None)
  }

  // ---------------------------------------------------------------------
  // Submitting a message

  /** `conversations.find(c => c.id === id)?.previousResponseId`: the
      response id of the first entry with the current id; none when no
      entry has it. */
  function PreviousResponseIdOf(cs: seq<Conversation>, id: Option<string>): (r: Option<string>)
    ensures (forall i :: 0 <= i < |cs| ==> Some(cs[i].id) != id) ==> r.None?
    ensures forall i :: 0 <= i < |cs| && Some(cs[i].id) == id && (forall j :: 0 <= j < i ==> Some(cs[j].id) != id) ==>
      r == cs[i].previousResponseId
  {
    if cs == [] then None
    else if Some(cs[0].id) == id then cs[0].previousResponseId
    else
      var r := PreviousResponseIdOf(cs[1..], id);
      assert forall i :: 1 <= i < |cs| ==> cs[i] == cs[1..][i - 1];
      r
  }

  /** The service's listing reaches the history in order: each GraphQL
      node becomes the entry at its position, with its id, title,
      description and response id. */
  lemma ServiceRowsReachSession(s: State, profile: Profile, edges: seq<CS.Edge>,
                                fallback: Result<Option<seq<CS.ConversationRow>>, string>)
    requires Truthy(profile.userId) && |edges| > 0
    ensures var r := ConversationsLoaded(s, profile, CS.GetUserConversations(Success(Some(edges)), fallback));
      && |r.conversations| == |edges|
      && forall i :: 0 <= i < |edges| ==>
           && r.conversations[i].id == edges[i].node.id
           && r.conversations[i].title == edges[i].node.title
           && r.conversations[i].description == edges[i].node.description
           && r.conversations[i].previousResponseId == edges[i].node.previousResponseId
  {
  }

  /** After the list is loaded, the response id the next message carries
      is the one stored with the first row of the current conversation,
      and none when no row has that id. */
  lemma LoadedResponseIdFound(s: State, profile: Profile, rows: seq<CS.ConversationRow>, id: string)
    requires Truthy(profile.userId) && |rows| > 0
    ensures var cs := ConversationsLoaded(s, profile, Success(rows)).conversations;
      && (forall k :: 0 <= k < |rows| && rows[k].id == id && (forall j :: 0 <= j < k ==> rows[j].id != id) ==>
            PreviousResponseIdOf(cs, Some(id)) == rows[k].previousResponseId)
      && ((forall k :: 0 <= k < |rows| ==> rows[k].id != id) ==> PreviousResponseIdOf(cs, Some(id)).None?)
  {
    var cs := ConversationsLoaded(s, profile, Success(rows)).conversations;
    assert forall k :: 0 <= k < |rows| ==> cs[k].id == rows[k].id;
  }

  /** After the list is loaded, the next message sent in the current
      conversation carries the response id stored with the first row of
      that conversation, and the user-message write carries it too when the
      current id is valid. */
  lemma NextMessageCarriesLoadedResponseId(s: State, profile: Profile, rows: seq<CS.ConversationRow>, k: nat,
                                          modelAttr: string, store: map<string, string>, prompt: string,
                                          newId: string, created: Result<string, string>)
    requires Truthy(profile.userId) && k < |rows|
    requires s.currentId == Some(rows[k].id) && forall j :: 0 <= j < k ==> rows[j].id != rows[k].id
    requires !IsBlank(s.input) && s.status != Streaming
    ensures var t := ConversationsLoaded(s, profile, Success(rows));
      var r := Submit(t, profile, modelAttr, store, prompt, newId, created);
      && r.sent.value.previousResponseId == rows[k].previousResponseId
      && (IsUuid(rows[k].id) ==>
            r.writes == [UserMessageWrite(rows[k].id, profile.userId.value, s.input, rows[k].previousResponseId)])
  {
    var t := ConversationsLoaded(s, profile, Success(rows));
    LoadedResponseIdFound(s, profile, rows, rows[k].id);
    assert t.currentId == s.currentId && t.input == s.input && t.status == s.status;
    assert PreviousResponseIdOf(t.conversations, t.currentId) == rows[k].previousResponseId;
  }

  /** The body `sendMessage` posts to the chat route. Options stand for
      fields that are `undefined` (`conversationId`, `userId`,
      `userRoleName`, `providerApiKey`) or null (`previousResponseId`,
      `providerName`) when absent. */
  datatype RequestBody = RequestBody(
    systemPrompt: string,
    conversationId: Option<string>,
    userId: Option<string>,
    userRoleName: Option<string>,
    userMessage: string,
    previousResponseId: Option<string>,
    model: string,
    providerApiKey: Option<string>,
    providerName: Option<Provider>)

  /** The body as the route reads it after JSON: `undefined` fields vanish,
      nulls arrive as null. */
  function ToRouteBody(b: RequestBody): Route.ChatBody {
    Route.ChatBody(
      Route.Str(b.systemPrompt),
      if b.previousResponseId.Some? then Route.Str(b.previousResponseId.value) else Route.NonString("null"),
      Route.Str(b.userMessage),
      Route.Str(b.model),
      if b.providerApiKey.Some? then Route.Str(b.providerApiKey.value) else Route.Missing,
      if b.providerName.Some? then Route.Str(Name(b.providerName.value)) else Route.NonString("null"))
  }

  /** The outcome of a submit: the next session, the writes issued, and the
      request sent, if any. */
  datatype Submission = Submission(state: State, writes: seq<Write>, sent: Option<RequestBody>)

  /** The user-message write for a conversation. */
  function UserMessageWrite(conversationId: string, userId: string, text: string, prev: Option<string>): Write {
    CreateMessageWrite(MS.CreateMessageInput(conversationId, Val(userId), User, text, NullOr(prev), Undef))
  }

  /** The lazy creation of a conversation: the create write, then on
      success the new id becomes current and goes into the URL, the new
      conversation is put first in the list, and the user message is written
      under it. `created` is the outcome of the awaited create. */
  function CreateStep(s: State, userId: string, roleName: string, prev: Option<string>, created: Result<string, string>): (r: (State, seq<Write>))
    ensures |r.1| >= 1 && r.1[0] == CreateConversationWrite(CS.CreateInput(userId, roleName, Null, Undef, Undef, NullOr(prev)))
    ensures created.Failure? ==> r == (s, [r.1[0]])
    ensures created.Success? ==>
      && r.0 == s.(currentId := Some(created.value), urlId := Some(created.value),
                   conversations := [Conversation(created.value, Some("New conversation"), [], prev, None)] + s.conversations)
      && r.1 == [r.1[0]] + (if created.value != [] then [UserMessageWrite(created.value, userId, s.input, prev)] else [])
  {
    var create := CreateConversationWrite(CS.CreateInput(userId, roleName, Null, Undef, Undef, NullOr(prev)));
    match created
    case Failure(_) => (s, [create])
    case Success(id) =>
      var added := Conversation(id, Some("New conversation"), [], prev, None);
      (s.(currentId := Some(id), urlId := Some(id), conversations := [added] + s.conversations),
       [create] + (if id != [] then [UserMessageWrite(id, userId, s.input, prev)] else []))
  }

  /** The row the create write inserts: the user and role, null title,
      description and metadata, and the previous response id when there is
      one. */
  lemma CreatedRowColumns(s: State, userId: string, roleName: string, prev: Option<string>, created: Result<string, string>)
    ensures var row := CS.InsertRow(CreateStep(s, userId, roleName, prev, created).1[0].conversation);
      && row[CS.UserIdCol] == CS.Given(userId) && row[CS.UserRoleCol] == CS.Given(roleName)
      && row[CS.TitleCol] == CS.SqlNull && row[CS.DescriptionCol] == CS.SqlNull && row[CS.MetadataCol] == CS.SqlNull
      && row[CS.PreviousResponseIdCol] == (if prev.Some? then CS.Given(prev.value) else CS.SqlNull)
  {
  }

  /** `hasValidConversationId`: a current id with the UUID shape. */
  predicate HasValidId(s: State) {
    s.currentId.Some? && IsUuid(s.currentId.value)
  }

  /** A valid current id is truthy. */
  lemma ValidIdTruthy(s: State)
    ensures HasValidId(s) ==> Truthy(s.currentId)
  {
    if HasValidId(s) {
      ValidIsNonEmpty(s.currentId.value);
    }
  }

  /** Whether the submit takes the creation branch. */
  predicate CreatesConversation(s: State, profile: Profile) {
    !HasValidId(s) && Truthy(profile.userId) && Truthy(profile.roleName)
  }

  /** The persistence part of a submit: create, or write under the valid
      current id, or nothing. */
  function Persist(s: State, profile: Profile, prev: Option<string>, created: Result<string, string>): (r: (State, seq<Write>))
    ensures !CreatesConversation(s, profile) ==> r.0 == s
    ensures HasValidId(s) && Truthy(profile.userId) ==>
      r.1 == [UserMessageWrite(s.currentId.value, profile.userId.value, s.input, prev)]
    ensures !CreatesConversation(s, profile) && !(HasValidId(s) && Truthy(profile.userId)) ==> r.1 == []
  {
    if CreatesConversation(s, profile) then
      CreateStep(s, profile.userId.value, profile.roleName.value, prev, created)
    else if HasValidId(s) && Truthy(profile.userId) then
      (s, [UserMessageWrite(s.currentId.value, profile.userId.value, s.input, prev)])
    else (s, [])
  }

  /** `handleSubmit`. `modelAttr` is the form's `data-model` (empty when
      missing), `store` the browser's local storage, `prompt` the enhanced
      system prompt, `newId` the id the chat hook gives the user message,
      and `created` the outcome of creating a conversation if one is
      created. */
  function Submit(s: State, profile: Profile, modelAttr: string, store: map<string, string>, prompt: string,
                  newId: string, created: Result<string, string>): (r: Submission)
    ensures r.sent.Some? <==> !IsBlank(s.input) && s.status != Streaming
    ensures r.state.input == []
    ensures r.sent.None? ==> r.state == s.(input := []) && r.writes == []
    ensures r.sent.Some? ==>
      && r.sent.value.previousResponseId == PreviousResponseIdOf(s.conversations, s.currentId)
      && r.sent.value.systemPrompt == prompt
      && r.sent.value.model == (if modelAttr == [] then Route.DefaultModel else modelAttr)
      && r.sent.value.userMessage == s.input
    ensures r.sent.Some? && HasValidId(s) && Truthy(profile.userId) ==>
      && r.writes == [UserMessageWrite(s.currentId.value, profile.userId.value, s.input,
                                       PreviousResponseIdOf(s.conversations, s.currentId))]
      && r.sent.value.conversationId == s.currentId
      && r.state.conversations == s.conversations
    ensures r.sent.Some? && !CreatesConversation(s, profile) && !(HasValidId(s) && Truthy(profile.userId)) ==>
      r.writes == []
  {
    if IsBlank(s.input) || s.status == Streaming then Submission(s.(input := []), [], None)
    else
      var prev := PreviousResponseIdOf(s.conversations, s.currentId);
      var model := if modelAttr == [] then Route.DefaultModel else modelAttr;
      var provider := ResolveProvider(model);
      var (t, writes) := Persist(s, profile, prev, created);
      ValidIdTruthy(s);
      var body := RequestBody(prompt, if Truthy(t.currentId) then t.currentId else None,
        profile.userId, profile.roleName, s.input, prev, model, ResolveKey(store, provider), provider);
      Submission(
        t.(messages := s.messages + [UIMessage(newId, User, [TextPart(s.input)], None)],
           status := Submitted, errorMessage := None, input := []),
        writes, Some(body))
  }

  /** A submitted (not yet streaming) request does not block the next one. */
  lemma SubmittedDoesNotBlock(s: State, profile: Profile, modelAttr: string, store: map<string, string>,
                              prompt: string, newId: string, created: Result<string, string>)
    requires s.status == Submitted && !IsBlank(s.input)
    ensures Submit(s, profile, modelAttr, store, prompt, newId, created).sent.Some?
  {
  }

  /** A sent request carries the key resolved for the model's provider, and
      is sent whether or not a key resolved. */
  lemma SentKeyIsResolved(s: State, profile: Profile, modelAttr: string, store: map<string, string>,
                          prompt: string, newId: string, created: Result<string, string>)
    requires !IsBlank(s.input) && s.status != Streaming
    ensures var r := Submit(s, profile, modelAttr, store, prompt, newId, created);
      var model := if modelAttr == [] then Route.DefaultModel else modelAttr;
      && r.sent.Some?
      && r.sent.value.providerName == ResolveProvider(model)
      && r.sent.value.providerApiKey == ResolveKey(store, ResolveProvider(model))
      && r.sent.value.userMessage == s.input
      && r.state.messages == s.messages + [UIMessage(newId, User, [TextPart(s.input)], None)]
      && r.state.status == Submitted
  {
  }

  /** A conversation is created exactly when a message is sent without a
      valid current id by a user with both an id and a role name; the create
      write is then the first write. */
  lemma CreatesOnlyWithoutValidId(s: State, profile: Profile, modelAttr: string, store: map<string, string>,
                                  prompt: string, newId: string, created: Result<string, string>)
    ensures var r := Submit(s, profile, modelAttr, store, prompt, newId, created);
      (|r.writes| > 0 && r.writes[0].CreateConversationWrite?) <==>
        (r.sent.Some? && CreatesConversation(s, profile))
    ensures var r := Submit(s, profile, modelAttr, store, prompt, newId, created);
      forall i :: 0 < i < |r.writes| ==> !r.writes[i].CreateConversationWrite?
  {
    var r := Submit(s, profile, modelAttr, store, prompt, newId, created);
    if r.sent.Some? && CreatesConversation(s, profile) {
      var prev := PreviousResponseIdOf(s.conversations, s.currentId);
      var w := CreateStep(s, profile.userId.value, profile.roleName.value, prev, created).1;
      assert r.writes == Persist(s, profile, prev, created).1 == w;
      assert forall i :: 0 < i < |w| ==> w[i].CreateMessageWrite?;
    }
  }

  /** A successful creation makes the new id current, puts it in the URL,
      prepends the conversation titled "New conversation", and sends the
      request under that id. */
  lemma CreatedConversationIsCurrent(s: State, profile: Profile, modelAttr: string, store: map<string, string>,
                                     prompt: string, newId: string, id: string)
    requires !IsBlank(s.input) && s.status != Streaming
    requires CreatesConversation(s, profile)
    ensures var r := Submit(s, profile, modelAttr, store, prompt, newId, Success(id));
      && r.state.currentId == Some(id)
      && r.state.urlId == Some(id)
      && |r.state.conversations| == |s.conversations| + 1
      && r.state.conversations[0].id == id
      && r.state.conversations[0].title == Some("New conversation")
      && r.state.conversations[1..] == s.conversations
      && r.sent.value.conversationId == (if id != [] then Some(id) else None)
  {
  }

  /** The id a creation puts in the URL survives a reload when the
      database hands out UUIDs. */
  lemma CreatedIdSurvivesReload(s: State, profile: Profile, modelAttr: string, store: map<string, string>,
                                prompt: string, newId: string, id: string)
    requires !IsBlank(s.input) && s.status != Streaming
    requires CreatesConversation(s, profile) && IsUuid(id)
    ensures var r := Submit(s, profile, modelAttr, store, prompt, newId, Success(id));
      LoadIdFromUrl(r.state).currentId == Some(id)
  {
    ValidIsNonEmpty(id);
  }

  /** A body whose key, if any, is trimmed and not blank, and comes with a
      provider name. */
  predicate KeyWellFormed(b: RequestBody) {
    b.providerApiKey.Some? ==>
      b.providerName.Some? && !IsBlank(b.providerApiKey.value) && Trim(b.providerApiKey.value) == b.providerApiKey.value
  }

  /** Every body the session sends has a well-formed key. */
  lemma SentKeyWellFormed(s: State, profile: Profile, modelAttr: string, store: map<string, string>,
                          prompt: string, newId: string, created: Result<string, string>)
    requires !IsBlank(s.input) && s.status != Streaming
    ensures KeyWellFormed(Submit(s, profile, modelAttr, store, prompt, newId, created).sent.value)
  {
    var b := Submit(s, profile, modelAttr, store, prompt, newId, created).sent.value;
    if b.providerApiKey.Some? {
      TrimIdempotent(store[StorageKey(b.providerName.value)]);
    }
  }

  /** The route on a session body: a key starts a stream with the named
      provider and exactly that key; no key is refused as a missing key,
      naming the provider or "null". */
  lemma RouteOnSessionBody(b: RequestBody, fallback: string)
    requires KeyWellFormed(b)
    ensures var routed := Route.Prepare(ToRouteBody(b), fallback);
      && (b.providerApiKey.Some? ==>
            && routed.Success?
            && routed.value.provider == b.providerName.value
            && routed.value.apiKey == b.providerApiKey.value)
      && (b.providerApiKey.None? ==>
            routed == Failure(Route.MissingKeyPrefix + (if b.providerName.Some? then Name(b.providerName.value) else "null")))
  {
    if b.providerApiKey.Some? {
      RouteWithKey(b, fallback);
    } else {
      RouteWithoutKey(b, fallback);
    }
  }

  lemma RouteWithKey(b: RequestBody, fallback: string)
    requires KeyWellFormed(b) && b.providerApiKey.Some?
    ensures var routed := Route.Prepare(ToRouteBody(b), fallback);
      && routed.Success?
      && routed.value.provider == b.providerName.value
      && routed.value.apiKey == b.providerApiKey.value
  {
    var body := ToRouteBody(b);
    var p := b.providerName.value;
    var key := b.providerApiKey.value;
    assert body.providerApiKey == Route.Str(key);
    assert body.providerName == Route.Str(Name(p));
    assert Route.HasUsableKey(body.providerApiKey);
    Route.NamedProviderStarts(body, fallback, p);
  }

  lemma RouteWithoutKey(b: RequestBody, fallback: string)
    requires b.providerApiKey.None?
    ensures Route.Prepare(ToRouteBody(b), fallback)
         == Failure(Route.MissingKeyPrefix + (if b.providerName.Some? then Name(b.providerName.value) else "null"))
  {
    var body := ToRouteBody(b);
    assert body.providerApiKey == Route.Missing;
  }

  /** A request sent without a key comes back as the missing-key
      explanation, with status 200 and the error flag, whether or not a
      provider was named. */
  lemma KeylessRequestExplained(b: RequestBody, fallback: string, responseId: Option<string>)
    requires b.providerApiKey.None?
    ensures Route.Post(Success(ToRouteBody(b)), fallback, responseId)
         == Route.JsonReply(200, Route.ErrorBody(Route.FriendlyText(Route.KeyMissing, []), true))
  {
    var body := ToRouteBody(b);
    if b.providerName.Some? {
      Route.BlankKeyExplained(body, fallback, responseId, b.providerName.value);
    } else {
      Route.BlankKeyNullNameExplained(body, fallback, responseId);
    }
  }

  /** Submit followed by the route: the request is sent even without a key,
      and the route then refuses it; with a key, the stream uses the
      provider the session resolved from the model and the stored key. */
  lemma SubmitThenRoute(s: State, profile: Profile, modelAttr: string, store: map<string, string>,
                        prompt: string, newId: string, created: Result<string, string>, fallback: string)
    requires !IsBlank(s.input) && s.status != Streaming
    ensures var b := Submit(s, profile, modelAttr, store, prompt, newId, created).sent.value;
      var routed := Route.Prepare(ToRouteBody(b), fallback);
      && (b.providerApiKey.Some? ==>
            && routed.Success?
            && routed.value.provider == b.providerName.value
            && routed.value.apiKey == b.providerApiKey.value)
      && (b.providerApiKey.None? ==> routed.Failure?)
  {
    SentKeyWellFormed(s, profile, modelAttr, store, prompt, newId, created);
    RouteOnSessionBody(Submit(s, profile, modelAttr, store, prompt, newId, created).sent.value, fallback);
  }

  // ---------------------------------------------------------------------
  // Finishing a reply

  /** `parsed.description || content`: the parsed description when it is a
      non-empty string, otherwise the whole content. */
  function Description(content: string, parsed: Parse): (r: string)
    ensures parsed.Parsed? && parsed.description.Some? && parsed.description.value != [] ==>
      r == parsed.description.value
    ensures !(parsed.Parsed? && parsed.description.Some? && parsed.description.value != []) ==> r == content
    ensures r == [] ==> content == []
  {
    if parsed.Parsed? && parsed.description.Some? && parsed.description.value != [] then parsed.description.value
    else content
  }

  /** The description stored after a reply is what the settled chat shows
      for a braced answer, except when its `description` is the empty
      string: the chat then shows nothing and the history keeps the whole
      content. */
  lemma DescriptionMatchesSettledView(content: string, parse: string -> Parse)
    requires StartsWith(Trim(content), "{") && EndsWith(Trim(content), "}")
    ensures !(parse(content).Parsed? && parse(content).description == Some([])) ==>
      Description(content, parse(content)) == ChatDisplay.AssistantView(content, false, parse)
    ensures parse(content).Parsed? && parse(content).description == Some([]) ==>
      Description(content, parse(content)) == content && ChatDisplay.AssistantView(content, false, parse) == []
  {
    assert !IsBlank(content);
  }

  /** The entry for a conversation after a reply: the new title if there is
      one, the new description, the response id and the full message list. */
  function Refreshed(c: Conversation, title: Option<string>, description: string, responseId: Option<string>,
                     all: seq<UIMessage>): Conversation {
    c.(title := if title.Some? then title else c.title, previousResponseId := responseId,
       description := Some(description), messages := all)
  }

  predicate HasId(cs: seq<Conversation>, id: string) {
    exists i :: 0 <= i < |cs| && cs[i].id == id
  }

  /** The local upsert after a reply: every entry with the id is refreshed
      in place; with no such entry a new one is appended. */
  function Upsert(cs: seq<Conversation>, id: string, title: Option<string>, description: string,
                  responseId: Option<string>, all: seq<UIMessage>): (r: seq<Conversation>)
    ensures HasId(cs, id) ==> |r| == |cs|
    ensures HasId(cs, id) ==> forall i :: 0 <= i < |cs| && cs[i].id != id ==> r[i] == cs[i]
    ensures HasId(cs, id) ==> forall i :: 0 <= i < |cs| && cs[i].id == id ==>
      r[i] == Refreshed(cs[i], title, description, responseId, all)
    ensures !HasId(cs, id) ==>
      r == cs + [Conversation(id, Some(title.GetOr("New conversation")), all, responseId, Some(description))]
  {
    if HasId(cs, id) then
      seq(|cs|, i requires 0 <= i < |cs| =>
        if cs[i].id == id then Refreshed(cs[i], title, description, responseId, all) else cs[i])
    else cs + [Conversation(id, Some(title.GetOr("New conversation")), all, responseId, Some(description))]
  }

  predicate DistinctIds(cs: seq<Conversation>) {
    forall i, j :: 0 <= i < j < |cs| ==> cs[i].id != cs[j].id
  }

  /** The upsert keeps ids distinct, keeps the order of ids, and leaves
      exactly one entry with the id, carrying the new description. */
  lemma UpsertKeepsIdsDistinct(cs: seq<Conversation>, id: string, title: Option<string>, description: string,
                               responseId: Option<string>, all: seq<UIMessage>)
    requires DistinctIds(cs)
    ensures var r := Upsert(cs, id, title, description, responseId, all);
      && DistinctIds(r)
      && (forall i :: 0 <= i < |cs| ==> r[i].id == cs[i].id)
      && HasId(r, id)
      && (forall i :: 0 <= i < |r| && r[i].id == id ==> r[i].description == Some(description))
  {
    var r := Upsert(cs, id, title, description, responseId, all);
    if !HasId(cs, id) {
      assert r[|cs|].id == id;
    } else {
      var k :| 0 <= k < |cs| && cs[k].id == id;
      assert r[k].id == id;
    }
  }

  /** The outcome of `onFinish`: the next session and the writes issued. */
  datatype Finished = Finished(state: State, writes: seq<Write>)

  /** The title source: the first text of the last user message. */
  function TitleOf(all: seq<UIMessage>): Option<string> {
    match LastUserMessage(all)
    case Some(m) => FirstText(m)
    case None => None
  }

  /** Whether the reply is the route's error body. */
  predicate IsErrorReply(parsed: Parse) {
    parsed.Parsed? && parsed.errorFlag
  }

  /** Whether `onFinish` persists the reply: not the route's error body,
      and both a current id and a user id. */
  predicate Persists(s: State, profile: Profile, parsed: Parse) {
    !IsErrorReply(parsed) && Truthy(s.currentId) && Truthy(profile.userId)
  }

  /** The writes of a persisted reply: the assistant message unless it is
      blank, then the conversation update when the user has a role name. */
  function FinishWrites(s: State, profile: Profile, content: string, title: Option<string>,
                        responseId: Option<string>): seq<Write>
    requires Truthy(s.currentId) && Truthy(profile.userId)
  {
    var id := s.currentId.value;
    var saved := if !IsBlank(content) then
        [CreateMessageWrite(MS.CreateMessageInput(id, Val(profile.userId.value), Assistant, content, NullOr(responseId), Undef))]
      else [];
    var updated := if Truthy(profile.roleName) then
        [UpdateConversationWrite(CS.UpdateInput(id, NullOr(title), Val(content), NullOr(responseId)))]
      else [];
    saved + updated
  }

  /** `onFinish`. `message` is the finished assistant message, `all` the
      hook's full list, `responseId` the `x-response-id` header seen, and
      `parse` the JSON parser. The hook reports ready once it is done. */
  function Finish(s: State, profile: Profile, message: UIMessage, all: seq<UIMessage>, responseId: Option<string>,
                  parse: string -> Parse): (r: Finished)
    ensures r.state.messages == (if |all| > 0 then all else s.messages)
    ensures r.state.errorMessage.None? && r.state.status == Ready
    ensures r.state.currentId == s.currentId && r.state.input == s.input && r.state.urlId == s.urlId
    ensures Persists(s, profile, parse(RawContent(message))) ==>
      r.state.conversations == Upsert(s.conversations, s.currentId.value, TitleOf(all),
                                      Description(RawContent(message), parse(RawContent(message))), responseId, all)
    ensures !Persists(s, profile, parse(RawContent(message))) ==>
      r.state.conversations == s.conversations && r.writes == []
  {
    var content := RawContent(message);
    var parsed := parse(content);
    var title := TitleOf(all);
    var s1 := s.(messages := if |all| > 0 then all else s.messages, errorMessage := None, status := Ready);
    if Persists(s, profile, parsed) then
      var id := s.currentId.value;
      Finished(s1.(conversations := Upsert(s.conversations, id, title, Description(content, parsed), responseId, all)),
        FinishWrites(s, profile, content, title, responseId))
    else Finished(s1, [])
  }


  /** A persisted reply lands in the history: the entries keep distinct
      ids, the current conversation is in the list (appended at the end if
      it was missing), every entry with its id carries the reply's
      description, the response id and the full message list, and every
      other entry stays as it was. */
  lemma PersistedReplyInHistory(s: State, profile: Profile, message: UIMessage, all: seq<UIMessage>,
                                responseId: Option<string>, parse: string -> Parse)
    requires Persists(s, profile, parse(RawContent(message)))
    requires DistinctIds(s.conversations)
    ensures var cs := Finish(s, profile, message, all, responseId, parse).state.conversations;
      var id := s.currentId.value;
      var d := Description(RawContent(message), parse(RawContent(message)));
      && DistinctIds(cs)
      && HasId(cs, id)
      && |cs| == |s.conversations| + (if HasId(s.conversations, id) then 0 else 1)
      && (forall i :: 0 <= i < |cs| && cs[i].id == id ==>
            cs[i].description == Some(d) && cs[i].previousResponseId == responseId && cs[i].messages == all)
      && (forall i :: 0 <= i < |s.conversations| && s.conversations[i].id != id ==> cs[i] == s.conversations[i])
  {
    var content := RawContent(message);
    UpsertRecordsReply(s.conversations, s.currentId.value, TitleOf(all), Description(content, parse(content)),
                       responseId, all);
  }

  /** The upsert's effect on the entries, stated without its body. */
  lemma UpsertRecordsReply(cs: seq<Conversation>, id: string, title: Option<string>, description: string,
                           responseId: Option<string>, all: seq<UIMessage>)
    requires DistinctIds(cs)
    ensures var r := Upsert(cs, id, title, description, responseId, all);
      && DistinctIds(r)
      && HasId(r, id)
      && |r| == |cs| + (if HasId(cs, id) then 0 else 1)
      && (forall i :: 0 <= i < |r| && r[i].id == id ==>
            r[i].description == Some(description) && r[i].previousResponseId == responseId && r[i].messages == all)
      && (forall i :: 0 <= i < |cs| && cs[i].id != id ==> r[i] == cs[i])
  {
    var r := Upsert(cs, id, title, description, responseId, all);
    UpsertKeepsIdsDistinct(cs, id, title, description, responseId, all);
    if !HasId(cs, id) {
      forall i | 0 <= i < |r| && r[i].id == id
        ensures r[i].previousResponseId == responseId && r[i].messages == all
      {
        assert i == |cs|;
      }
    }
  }

  /** An error reply is never persisted and leaves the history untouched. */
  lemma ErrorReplyNotPersisted(s: State, profile: Profile, message: UIMessage, all: seq<UIMessage>,
                               responseId: Option<string>, parse: string -> Parse)
    requires IsErrorReply(parse(RawContent(message)))
    ensures var r := Finish(s, profile, message, all, responseId, parse);
      r.writes == [] && r.state.conversations == s.conversations
  {
  }

  /** The assistant message is saved exactly when the reply is persisted and
      its content is not blank, and is saved with that content. */
  lemma AssistantSavedUnlessBlank(s: State, profile: Profile, message: UIMessage, all: seq<UIMessage>,
                                  responseId: Option<string>, parse: string -> Parse)
    ensures var r := Finish(s, profile, message, all, responseId, parse);
      && ((|r.writes| > 0 && r.writes[0].CreateMessageWrite?) <==>
           !IsErrorReply(parse(RawContent(message))) && Truthy(s.currentId) && Truthy(profile.userId)
           && !IsBlank(RawContent(message)))
      && (|r.writes| > 0 && r.writes[0].CreateMessageWrite? ==>
           && r.writes[0].message.content == RawContent(message)
           && r.writes[0].message.role == Assistant
           && r.writes[0].message.conversationId == s.currentId.value)
      && (forall i :: 0 < i < |r.writes| ==> r.writes[i].UpdateConversationWrite?)
  {
    var content := RawContent(message);
    if Persists(s, profile, parse(content)) {
      var w := FinishWrites(s, profile, content, TitleOf(all), responseId);
      assert Finish(s, profile, message, all, responseId, parse).writes == w;
    } else {
      assert Finish(s, profile, message, all, responseId, parse).writes == [];
    }
  }

  /** A persisted reply updates the stored conversation when the user has a
      role name, with the last user message's first text as title and the
      whole content as description. */
  lemma UpdateCarriesTitle(s: State, profile: Profile, message: UIMessage, all: seq<UIMessage>,
                           responseId: Option<string>, parse: string -> Parse)
    requires !IsErrorReply(parse(RawContent(message))) && Truthy(s.currentId) && Truthy(profile.userId)
    requires Truthy(profile.roleName)
    ensures var r := Finish(s, profile, message, all, responseId, parse);
      && |r.writes| > 0
      && r.writes[|r.writes| - 1] == UpdateConversationWrite(
           CS.UpdateInput(s.currentId.value, NullOr(TitleOf(all)), Val(RawContent(message)), NullOr(responseId)))
  {
    var w := FinishWrites(s, profile, RawContent(message), TitleOf(all), responseId);
    assert Finish(s, profile, message, all, responseId, parse).writes == w;
  }

  // ---------------------------------------------------------------------
  // Errors, loading messages, switching conversations

  /** What the chat hook reports on failure. */
  datatype ChatError = ErrorWithMessage(message: string) | NonError

  const FallbackErrorText: string := "Something went wrong while calling the AI provider."

  /** `onError`: one assistant message with the error text is appended. */
  function OnError(s: State, e: ChatError, newId: string): (r: State)
    ensures |r.messages| == |s.messages| + 1 && r.messages[..|s.messages|] == s.messages
    ensures var m := r.messages[|s.messages|];
      m.role == Assistant && m.id == newId
      && RawContent(m) == (if e.ErrorWithMessage? then e.message else FallbackErrorText)
    ensures r.conversations == s.conversations && r.currentId == s.currentId
  {
    var text := if e.ErrorWithMessage? then e.message else FallbackErrorText;
    SingleTextContent(newId, Assistant, text, None);
    s.(messages := s.messages + [UIMessage(newId, Assistant, [TextPart(text)], None)], status := Errored)
  }

  /** The messages effect for the current id. `fetched` is what the message
      store returned (`None` for `undefined`, whose `.length` throws and is
      only logged). A non-empty list goes on screen and into the history
      entry; an empty one for an id that came from the URL clears it. */
  function LoadMessages(s: State, profile: Profile, fetched: Option<seq<UIMessage>>): (r: State)
    ensures !Truthy(s.currentId) || !Truthy(profile.userId) || fetched.None? ==> r == s
    ensures |r.conversations| == |s.conversations|
    ensures forall i :: 0 <= i < |r.conversations| ==> r.conversations[i].id == s.conversations[i].id
    ensures Truthy(s.currentId) && Truthy(profile.userId) && fetched.Some? && |fetched.value| > 0 ==>
      && r.messages == fetched.value
      && r.currentId == s.currentId
      && forall i :: 0 <= i < |r.conversations| ==>
           r.conversations[i] == (if s.conversations[i].id == s.currentId.value
                                  then s.conversations[i].(messages := fetched.value) else s.conversations[i])
    ensures Truthy(s.currentId) && Truthy(profile.userId) && fetched == Some([]) ==>
      r == (if s.urlId == s.currentId then s.(currentId := None, messages := [], urlId := None) else s)
  {
    if !Truthy(s.currentId) || !Truthy(profile.userId) then s
    else match fetched
      case None => s
      case Some(ms) =>
        if |ms| > 0 then
          var id := s.currentId.value;
          var cs := s.conversations;
          s.(messages := ms,
             conversations := seq(|cs|, i requires 0 <= i < |cs| => if cs[i].id == id then cs[i].(messages := ms) else cs[i]))
        else if s.urlId == s.currentId then s.(currentId := None, messages := [], urlId := None)
        else s
  }

  /** `createNewConversation`. */
  function CreateNewConversation(s: State): (r: State)
    ensures r.currentId.None? && r.messages == [] && r.urlId.None?
    ensures r.conversations == s.conversations && r.status == s.status && r.input == s.input
  {
    s.(currentId := None, messages := [], urlId := None)
  }

  /** `selectConversation`. */
  function SelectConversation(s: State, id: string): (r: State)
    ensures r.currentId == Some(id) && r.urlId == Some(id)
    ensures r.messages == s.messages && r.conversations == s.conversations
  {
    s.(currentId := Some(id), urlId := Some(id))
  }

  /** Selecting a conversation and then loading its messages shows them and
      stores them in its history entry. */
  lemma SelectThenLoad(s: State, profile: Profile, id: string, ms: seq<UIMessage>)
    requires id != [] && Truthy(profile.userId) && |ms| > 0
    ensures var r := LoadMessages(SelectConversation(s, id), profile, Some(ms));
      && r.currentId == Some(id)
      && r.messages == ms
      && forall i :: 0 <= i < |r.conversations| && r.conversations[i].id == id ==> r.conversations[i].messages == ms
  {
  }

  /** Starting a new conversation leaves nothing for the URL effect to
      restore. */
  lemma NewConversationIsClean(s: State)
    ensures LoadIdFromUrl(CreateNewConversation(s)) == CreateNewConversation(s)
  {
  }

  /** `isLoading`. */
  predicate IsLoading(st: Status) {
    st == Submitted || st == Streaming
  }
}
