/** The chat endpoint: it reads the request body, checks the API key, picks
    the provider client from the provider name, and either starts a stream
    or answers with a JSON error body that the chat view can display.

    The provider SDKs, the stream itself and the clock are outside the
    model: a started stream is the `StreamCall` the route would hand to the
    SDK, and the timestamp of an error body is a parameter. */
module ChatRoute {
  import opened Wrappers
  import opened Text
  import opened Providers
  import opened UiMessages
  import opened JsonView

  /** One property of the parsed request body. */
  datatype Field = Missing | Str(value: string) | NonString(rendered: string)

  /** The properties the route destructures from the body. */
  datatype ChatBody = ChatBody(
    systemPrompt: Field,
    previousResponseId: Field,
    userMessage: Field,
    model: Field,
    providerApiKey: Field,
    providerName: Field)

  const DefaultModel: string := "gpt-4o-mini"
  const MissingKeyPrefix: string := "No API key provided for "
  const DefaultProviderName: string := "openai"

  /** `${providerName}` after the destructuring default: a missing name
      reads as "openai", a non-string value as its string form. */
  function Label(f: Field): string {
    match f
    case Missing => DefaultProviderName
    case Str(v) => v
    case NonString(rendered) => rendered
  }

  /** The model after the destructuring default. */
  function ModelOf(f: Field): Field {
    if f.Missing? then Str(DefaultModel) else f
  }

  /** The key the route accepts: a string whose trimmed form is not empty
      (`typeof providerApiKey === "string" ? providerApiKey.trim() : ""`
      followed by the emptiness test). */
  predicate HasUsableKey(f: Field) {
    f.Str? && !IsBlank(f.value)
  }

  /** The client's system prompt when it is a non-blank string, otherwise
      the built-in prompt. */
  function EffectiveSystemPrompt(supplied: Field, fallback: string): (r: string)
    ensures supplied.Str? && !IsBlank(supplied.value) ==> r == supplied.value
    ensures !(supplied.Str? && !IsBlank(supplied.value)) ==> r == fallback
    ensures !IsBlank(fallback) ==> !IsBlank(r)
  {
    if supplied.Str? && !IsBlank(supplied.value) then supplied.value else fallback
  }

  /** The prompt rule has a fixed point: sending back the prompt the route
      used leads to the same prompt, and a blank or non-string prompt is
      treated exactly as a missing one. */
  lemma EffectivePromptStable(supplied: Field, fallback: string)
    requires !IsBlank(fallback)
    ensures var p := EffectiveSystemPrompt(supplied, fallback);
      EffectiveSystemPrompt(Str(p), fallback) == p
    ensures !(supplied.Str? && !IsBlank(supplied.value)) ==>
      EffectiveSystemPrompt(supplied, fallback) == EffectiveSystemPrompt(Missing, fallback)
  {
    var p := EffectiveSystemPrompt(supplied, fallback);
    assert !IsBlank(p);
  }

  /** The provider client the lower-cased name selects; "gemini" is checked
      before "openai". */
  function RouteProvider(name: string): (r: Option<Provider>)
    ensures r == Some(Gemini) <==> Contains(ToLower(name), "gemini")
    ensures r == Some(OpenAI) <==>
      !Contains(ToLower(name), "gemini") && Contains(ToLower(name), "openai")
  {
    var lower := ToLower(name);
    if Contains(lower, "gemini") then Some(Gemini)
    else if Contains(lower, "openai") then Some(OpenAI)
    else None
  }

  /** One turn of the conversation handed to the model. */
  datatype Turn = Turn(role: Role, content: Field)

  /** Everything the route hands to `streamText`. */
  datatype StreamCall = StreamCall(
    provider: Provider,
    model: Field,
    apiKey: string,
    system: string,
    messages: seq<Turn>)

  /** The body of the `try` up to `streamText`: a call to start, or the
      message of the error the route throws. */
  function Prepare(body: ChatBody, fallbackPrompt: string): (r: Result<StreamCall, string>)
    ensures r.Success? <==> HasUsableKey(body.providerApiKey) && RouteProvider(Label(body.providerName)).Some?
    ensures !HasUsableKey(body.providerApiKey) ==>
      r == Failure(MissingKeyPrefix + Label(body.providerName))
    ensures HasUsableKey(body.providerApiKey) && RouteProvider(Label(body.providerName)).None? ==>
      r == Failure("Unsupported provider: " + Label(body.providerName))
    ensures r.Success? ==>
      && r.value.provider == RouteProvider(Label(body.providerName)).value
      && r.value.apiKey == Trim(body.providerApiKey.value) && r.value.apiKey != []
      && r.value.system == EffectiveSystemPrompt(body.systemPrompt, fallbackPrompt)
      && r.value.model == ModelOf(body.model)
      && r.value.messages == [Turn(User, body.userMessage)]
  {
    var name := Label(body.providerName);
    if !HasUsableKey(body.providerApiKey) then Failure(MissingKeyPrefix + name)
    else match RouteProvider(name)
      case None => Failure("Unsupported provider: " + name)
      case Some(p) =>
        Success(StreamCall(p, ModelOf(body.model), Trim(body.providerApiKey.value),
          EffectiveSystemPrompt(body.systemPrompt, fallbackPrompt),
          [Turn(User, body.userMessage)]))
  }

  /** The `x-response-id` header: only for an "openai" name, and only when
      the provider reported a non-empty response id. */
  function ResponseIdHeader(name: string, responseId: Option<string>): (r: Option<string>)
    ensures r.Some? <==> Contains(ToLower(name), "openai") && responseId.Some? && responseId.value != []
    ensures r.Some? ==> r == responseId
  {
    if Contains(ToLower(name), "openai") && responseId.Some? && responseId.value != [] then responseId
    else None
  }

  /** A value caught by the route: an `Error` with a message, or anything
      else. */
  datatype Thrown = ErrorObject(message: string) | OtherValue

  function ErrorMessage(t: Thrown): string {
    match t
    case ErrorObject(m) => m
    case OtherValue => "Internal Server Error"
  }

  /** The kinds of failure the route explains to the user, in the order it
      tests for them. */
  datatype Category =
    | QuotaExceeded
    | RateLimited
    | InvalidKey
    | IncorrectKey
    | ModelNotFound
    | BillingIssue
    | KeyMissing
    | AuthenticationFailed
    | Unrecognised

  function Rank(c: Category): nat {
    match c
    case QuotaExceeded => 0
    case RateLimited => 1
    case InvalidKey => 2
    case IncorrectKey => 3
    case ModelNotFound => 4
    case BillingIssue => 5
    case KeyMissing => 6
    case AuthenticationFailed => 7
    case Unrecognised => 8
  }

  /** The words in an error message that point at each category, taken one
      category at a time; every message fits `Unrecognised`. */
  predicate Signals(c: Category, m: string) {
    match c
    case QuotaExceeded => Contains(m, "quota") || Contains(m, "RESOURCE_EXHAUSTED")
    case RateLimited => Contains(m, "rate limit") || Contains(m, "too many requests")
    case InvalidKey => Contains(m, "invalid") && Contains(m, "api key")
    case IncorrectKey => Contains(m, "Incorrect API key")
    case ModelNotFound => Contains(m, "model") && Contains(m, "not found")
    case BillingIssue => Contains(m, "insufficient_quota") || Contains(m, "billing")
    case KeyMissing => Contains(m, "No API key provided")
    case AuthenticationFailed => Contains(m, "authentication") || Contains(m, "unauthorized")
    case Unrecognised => true
  }

  /** The category of a message: the first one, in the route's order, whose
      words the message contains. */
  function Classify(m: string): (c: Category)
    ensures Signals(c, m)
    ensures forall d :: Rank(d) < Rank(c) ==> !Signals(d, m)
  {
    if Contains(m, "quota") || Contains(m, "RESOURCE_EXHAUSTED") then QuotaExceeded
    else if Contains(m, "rate limit") || Contains(m, "too many requests") then RateLimited
    else if Contains(m, "invalid") && Contains(m, "api key") then InvalidKey
    else if Contains(m, "Incorrect API key") then IncorrectKey
    else if Contains(m, "model") && Contains(m, "not found") then ModelNotFound
    else if Contains(m, "insufficient_quota") || Contains(m, "billing") then BillingIssue
    else if Contains(m, "No API key provided") then KeyMissing
    else if Contains(m, "authentication") || Contains(m, "unauthorized") then AuthenticationFailed
    else Unrecognised
  }

  /** Exactly one category is the first match: any category that signals
      and is preceded by none that does is the one `Classify` returns. */
  lemma ClassifyUnique(m: string, c: Category)
    requires Signals(c, m)
    requires forall d :: Rank(d) < Rank(c) ==> !Signals(d, m)
    ensures Classify(m) == c
  {
  }

  /** The text shown for each category. */
  function FriendlyText(c: Category, m: string): string {
    match c
    case QuotaExceeded =>
      "\U{26A0}\U{FE0F} **Quota Exceeded**\n\nYou have exceeded your current API quota. Please recharge your balance or upgrade your plan to continue using this service.\n\n**Next Steps:**\n- Check your billing details\n- Add credits to your account\n- Wait for the quota to reset\n- Consider upgrading to a paid plan"
    case RateLimited =>
      "\U{26A0}\U{FE0F} **Rate Limit Exceeded**\n\nYou're sending requests too quickly. Please wait a moment and try again.\n\n**Tip:** Space out your requests to avoid hitting rate limits."
    case InvalidKey =>
      "\U{1F511} **Invalid API Key**\n\nThe API key you provided is not valid. Please check your API key and try again.\n\n**Steps to fix:**\n1. Go to your provider's dashboard\n2. Generate a new API key\n3. Update the key in your settings"
    case IncorrectKey =>
      "\U{1F511} **Incorrect API Key**\n\nThe API key provided is incorrect or has been revoked. Please verify your API key.\n\n**Steps to fix:**\n1. Check for typos in your API key\n2. Ensure the key hasn't expired\n3. Generate a new key if needed"
    case ModelNotFound =>
      "\U{1F916} **Model Not Found**\n\nThe AI model you selected is not available or doesn't exist.\n\n**Solution:** Please select a different model from the available options."
    case BillingIssue =>
      "\U{1F4B3} **Billing Issue**\n\nThere's an issue with your account billing. Please check your payment method and account balance.\n\n**Action required:**\n- Verify your payment method\n- Add funds to your account\n- Contact your provider's support if needed"
    case KeyMissing =>
      "\U{1F511} **API Key Missing**\n\nNo API key was provided. Please add your API key in the settings to use this feature."
    case AuthenticationFailed =>
      "\U{1F510} **Authentication Failed**\n\nFailed to authenticate with the AI provider. Please check your API credentials.\n\n**Common causes:**\n- Expired API key\n- Invalid permissions\n- Account access issues"
    case Unrecognised =>
      UnrecognisedHead + m + UnrecognisedTail
  }

  const UnrecognisedHead: string := "\U{274C} **An Error Occurred**\n\n"
  const UnrecognisedTail: string := "\n\nPlease try again. If the problem persists, contact support."

  /** The JSON object the route sends instead of a stream. */
  datatype ErrorBody = ErrorBody(description: string, error: bool)

  /** The reply of the route. */
  datatype Reply =
    | Streamed(call: StreamCall, responseIdHeader: Option<string>)
    | JsonReply(status: int, body: ErrorBody)

  /** The `catch` block: the explanation of whatever was thrown, with
      status 200 and the error flag set. */
  function ErrorReply(t: Thrown): (r: Reply)
    ensures r.JsonReply? && r.status == 200 && r.body.error
    ensures var m := ErrorMessage(t);
      r.body.description == FriendlyText(Classify(m), m)
  {
    var m := ErrorMessage(t);
    JsonReply(200, ErrorBody(FriendlyText(Classify(m), m), true))
  }

  /** `POST`: `request` is the outcome of reading the JSON body, and
      `responseId` what the provider metadata reports for the stream. */
  function Post(request: Result<ChatBody, Thrown>, fallbackPrompt: string, responseId: Option<string>): (r: Reply)
    ensures r.JsonReply? ==> r.status == 200 && r.body.error
    ensures r.Streamed? <==> request.Success? && Prepare(request.value, fallbackPrompt).Success?
    ensures request.Failure? ==> r == ErrorReply(request.error)
    ensures request.Success? && Prepare(request.value, fallbackPrompt).Failure? ==>
      r == ErrorReply(ErrorObject(Prepare(request.value, fallbackPrompt).error))
    ensures r.Streamed? ==>
      && r.call == Prepare(request.value, fallbackPrompt).value
      && r.responseIdHeader == ResponseIdHeader(Label(request.value.providerName), responseId)
      && (r.responseIdHeader.Some? ==> Contains(ToLower(Label(request.value.providerName)), "openai"))
  {
    match request
    case Failure(t) => ErrorReply(t)
    case Success(body) =>
      match Prepare(body, fallbackPrompt)
      case Failure(m) => ErrorReply(ErrorObject(m))
      case Success(call) => Streamed(call, ResponseIdHeader(Label(body.providerName), responseId))
  }

  /** The name the client sends for a provider routes to that provider. */
  lemma RoutesClientName(p: Provider)
    ensures RouteProvider(Name(p)) == Some(p)
  {
    var n := Name(p);
    ToLowerNoCapitals(n);
    assert OccursAt(n, n, 0);
    if p == OpenAI {
      assert 'g' !in n;
      NotContainsAbsentChar(n, "gemini", 'g');
    }
  }

  /** A body naming a provider as the client does, with a usable key,
      starts a stream with that provider and the trimmed key. */
  lemma NamedProviderStarts(body: ChatBody, fallbackPrompt: string, p: Provider)
    requires HasUsableKey(body.providerApiKey) && body.providerName == Str(Name(p))
    ensures Prepare(body, fallbackPrompt).Success?
    ensures Prepare(body, fallbackPrompt).value.provider == p
    ensures Prepare(body, fallbackPrompt).value.apiKey == Trim(body.providerApiKey.value)
  {
    RoutesClientName(p);
  }

  /** A name holding both words is routed to Gemini, while the session's
      resolver would have chosen OpenAI for the same text. */
  lemma RouteAndSessionDisagreeOnBoth(name: string)
    requires Contains(ToLower(name), "gemini") && Contains(ToLower(name), "openai")
    ensures RouteProvider(name) == Some(Gemini)
    ensures ResolveProvider(name) == Some(OpenAI)
  {
    OpenAIWinsOverGemini(name);
  }

  /** The message thrown for a missing key is explained as a missing key,
      for every provider name without the letters q, R, l and c, which
      the earlier categories' words need (both real provider names qualify). */
  lemma MissingKeyExplained(name: string)
    requires Avoids(name, LettersA)
    ensures Classify(MissingKeyPrefix + name) == KeyMissing
  {
    PrefixAvoids();
    AvoidsConcat(MissingKeyPrefix, name, LettersA);
    NoEarlierSignalA(MissingKeyPrefix + name);
    KeyMissingWhenNoEarlier(name);
  }

  /** The same for the name "null", which the session sends when no
      provider resolved; it has an "l", so other letters rule out the
      earlier categories. */
  lemma NullNameExplained(name: string)
    requires name == "null"
    ensures Classify(MissingKeyPrefix + name) == KeyMissing
  {
    PrefixAvoids();
    assert Avoids(name, LettersB);
    AvoidsConcat(MissingKeyPrefix, name, LettersB);
    NoEarlierSignalB(MissingKeyPrefix + name);
    KeyMissingWhenNoEarlier(name);
  }

  /** No character of `m` is one of `letters`. */
  predicate Avoids(m: string, letters: set<char>) {
    forall i :: 0 <= i < |m| ==> m[i] !in letters
  }

  const LettersA: set<char> := {'q', 'R', 'l', 'c'}
  const LettersB: set<char> := {'q', 'R', 't', 'a', 'c', 'm', 'b'}

  lemma AvoidsConcat(a: string, b: string, letters: set<char>)
    requires Avoids(a, letters) && Avoids(b, letters)
    ensures Avoids(a + b, letters)
  {
    forall i | 0 <= i < |a + b|
      ensures (a + b)[i] !in letters
    {
      if i >= |a| {
        assert (a + b)[i] == b[i - |a|];
      }
    }
  }

  lemma PrefixAvoids()
    ensures Avoids(MissingKeyPrefix, LettersA) && Avoids(MissingKeyPrefix, LettersB)
  {
  }

  lemma NameAvoids(p: Provider)
    ensures Avoids(Name(p), LettersA)
  {
  }

  /** Once none of the earlier categories signals, the prefix decides. */
  lemma KeyMissingWhenNoEarlier(name: string)
    requires forall d :: Rank(d) < Rank(KeyMissing) ==> !Signals(d, MissingKeyPrefix + name)
    ensures Classify(MissingKeyPrefix + name) == KeyMissing
  {
    var m := MissingKeyPrefix + name;
    assert MissingKeyPrefix[..19] == "No API key provided";
    assert OccursAt(m, "No API key provided", 0);
    ClassifyUnique(m, KeyMissing);
  }

  /** A message without q, R, l and c signals none of the categories checked
      before the missing-key one. */
  lemma NoEarlierSignalA(m: string)
    requires Avoids(m, LettersA)
    ensures forall d :: Rank(d) < Rank(KeyMissing) ==> !Signals(d, m)
  {
    assert 'q' !in m && 'R' !in m && 'l' !in m && 'c' !in m;
    NotContainsAbsentChar(m, "quota", 'q');
    NotContainsAbsentChar(m, "RESOURCE_EXHAUSTED", 'R');
    NotContainsAbsentChar(m, "rate limit", 'l');
    NotContainsAbsentChar(m, "too many requests", 'q');
    NotContainsAbsentChar(m, "invalid", 'l');
    NotContainsAbsentChar(m, "Incorrect API key", 'c');
    NotContainsAbsentChar(m, "model", 'l');
    NotContainsAbsentChar(m, "insufficient_quota", 'q');
    NotContainsAbsentChar(m, "billing", 'l');
  }

  /** The same with the letters q, R, t, a, c, m and b. */
  lemma NoEarlierSignalB(m: string)
    requires Avoids(m, LettersB)
    ensures forall d :: Rank(d) < Rank(KeyMissing) ==> !Signals(d, m)
  {
    assert 'q' !in m && 'R' !in m && 't' !in m && 'a' !in m && 'c' !in m && 'm' !in m && 'b' !in m;
    NotContainsAbsentChar(m, "quota", 'q');
    NotContainsAbsentChar(m, "RESOURCE_EXHAUSTED", 'R');
    NotContainsAbsentChar(m, "rate limit", 't');
    NotContainsAbsentChar(m, "too many requests", 'q');
    NotContainsAbsentChar(m, "invalid", 'a');
    NotContainsAbsentChar(m, "Incorrect API key", 'c');
    NotContainsAbsentChar(m, "model", 'm');
    NotContainsAbsentChar(m, "insufficient_quota", 'q');
    NotContainsAbsentChar(m, "billing", 'b');
  }

  /** A blank key is refused before the provider is looked at: for either
      provider name, the user sees the missing-key explanation. */
  lemma BlankKeyExplained(body: ChatBody, fallbackPrompt: string, responseId: Option<string>, p: Provider)
    requires !HasUsableKey(body.providerApiKey)
    requires Label(body.providerName) == Name(p)
    ensures Post(Success(body), fallbackPrompt, responseId) ==
      JsonReply(200, ErrorBody(FriendlyText(KeyMissing, []), true))
  {
    NameAvoids(p);
    MissingKeyExplained(Name(p));
  }

  /** The same when the provider name arrives as a JSON null, which the
      message spells "null". */
  lemma BlankKeyNullNameExplained(body: ChatBody, fallbackPrompt: string, responseId: Option<string>)
    requires !HasUsableKey(body.providerApiKey)
    requires body.providerName == NonString("null")
    ensures Post(Success(body), fallbackPrompt, responseId) ==
      JsonReply(200, ErrorBody(FriendlyText(KeyMissing, []), true))
  {
    NullNameExplained(Label(body.providerName));
  }

  /** An OpenAI `insufficient_quota` error is always explained as an
      exceeded quota: the billing branch never sees it. */
  lemma InsufficientQuotaIsQuota(m: string)
    requires Contains(m, "insufficient_quota")
    ensures Classify(m) == QuotaExceeded
  {
    var p := "insufficient_quota";
    assert OccursAt(p, "quota", 13);
    ContainsTransitive(m, p, "quota");
  }

  /** An unrecognised error is shown with its own message inside. */
  lemma UnrecognisedShowsMessage(m: string)
    requires Classify(m) == Unrecognised
    ensures Contains(FriendlyText(Classify(m), m), m)
  {
    ContainsMiddle(UnrecognisedHead, m, UnrecognisedTail);
  }

  /** `JSON.stringify` of the error body, for descriptions and timestamps
      that need only the five common escapes. */
  function ErrorJson(b: ErrorBody, timestamp: string): string {
    "{" + DescriptionKey + ":\"" + Escape(b.description) + "\"" + ErrorJsonTail(b.error, timestamp)
  }

  /** The members after the description. */
  function ErrorJsonTail(error: bool, timestamp: string): string {
    ",\"error\":" + (if error then "true" else "false") + ",\"timestamp\":\"" + Escape(timestamp) + "\"}"
  }

  /** The chat view's scanner finds the escaped description in the error
      body. The corrected decoder recovers every description from it; the
      display's chained replaces recover those without a backslash, which
      includes every fixed explanation (an unrecognised error's own message
      may hold one). */
  lemma ErrorJsonScanned(b: ErrorBody, timestamp: string)
    ensures FindDescription(ErrorJson(b, timestamp)) == Some(Escape(b.description))
    ensures Unescape(FindDescription(ErrorJson(b, timestamp)).value) == b.description
    ensures '\\' !in b.description ==>
      UnescapeAsWritten(FindDescription(ErrorJson(b, timestamp)).value) == b.description
  {
    var tail := ErrorJsonTail(b.error, timestamp);
    var x := Escape(b.description) + "\"" + tail;
    assert ErrorJson(b, timestamp) == "{" + DescriptionKey + ":\"" + x;
    TightHeaderFound(x);
    CaptureComplete(b.description, tail);
    UnescapeEscape(b.description);
    if '\\' !in b.description {
      AsWrittenInvertsWithoutBackslash(b.description);
    }
  }
}
