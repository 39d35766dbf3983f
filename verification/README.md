# AI chat dashboard — a Dafny model of its chat core

This project models the chat feature of a Next.js admin dashboard. The feature covers:

- an "AI manager" page, where a signed-in user chats with an OpenAI or Gemini model through a server route;
- conversations and messages, which are persisted through a GraphQL backend, with a direct-database fallback;
- API keys, which are kept in the browser's local storage;
- the sidebar navigation, which is filtered by the user's role permissions.

The model is split into these modules:

- `Wrappers`: `Option`, `Result` and `Nullable`. `Nullable` separates `undefined`, `null` and a value.
- `Text`: the ECMAScript string primitives the code relies on. These are `trim` (with ECMAScript's exact white-space set), ASCII `toLowerCase`, `startsWith`, `endsWith`, `includes` and `join`.
- `Uuid`: the anchored, case-insensitive UUID pattern that guards conversation ids.
- `Providers`: the two model-name→provider resolvers, the `ai-api-key:<provider>` storage entries, and the key lookup the session does before sending.
- `UiMessages`: the chat SDK's message shape. Only the text parts matter.
- `JsonView`: the hand-made JSON handling around the `{"description": …}` answer format. It covers string escaping, the scan that extracts a partial `description` from an unfinished stream, the chained replaces the display applies to that scan, and a corrected single-pass decoder.
- `ChatDisplay`: what the message list shows for each message, and the typing indicator. The display as written decodes the streamed value with the chained replaces; a corrected display, which decodes each escape pair once, sits beside it for the Findings row.
- `ChatRoute`: the chat endpoint. It covers body defaults, the key check, provider routing, the `x-response-id` header, error classification and the JSON error body.
- `ConversationsService` and `MessagesService`: the two stores, each with its GraphQL path and its fallback.
- `Session`: the conversation provider. Each handler is a function from the session record to the next record, plus the writes it issues. The handlers cover loading, submitting, finishing a reply, errors, loading messages, and starting or selecting a conversation.
- `ChatLayout`: the page around the list. It covers the model picker, the API-key dialog, the choice between spinner, welcome screen and list, and the history drawer.
- `Permissions` and `Menu`: the permission tables, and the role-filtered sidebar.

Some things are not computed by the model. Each one is a parameter of the operation that needs it:

- `JSON.parse` is a `parse: string -> Parse` oracle;
- backend outcomes are `Result` values;
- local storage is a `map<string, string>`;
- fresh ids are plain strings;
- the clock is the marker `Now` or a timestamp string.

## Model

| member | source | states |
|---|---|---|
| Text.TrimStart | app/api/chat/route.ts:27-28 | the result is the suffix of the input after its leading white space; all dropped characters are space |
| Text.TrimEnd | app/api/chat/route.ts:27-28 | the result is the prefix of the input before its trailing white space; all dropped characters are space |
| Text.Trim | app/api/chat/route.ts:27-31 | `trim` yields the slice of the input between a run of leading and a run of trailing white space; the slice neither starts nor ends with space, and is empty exactly when the input is all space (so `!trimmedKey` means a blank key) |
| Text.TrimEmptyIffAllSpace | app/api/chat/route.ts:27-31 | trimming leaves nothing exactly when every character was white space |
| Text.TrimKeepsFirst | components/dashboard/ai-manager/chat-messages.tsx:46-48 | a text starting with a non-space character keeps that first character after trimming |
| Text.TrimKeepsLast | components/dashboard/ai-manager/chat-messages.tsx:46-51 | a text ending in a non-space character keeps that last character after trimming |
| Text.TrimIdempotent | components/dashboard/ai-manager/conversation-provider.tsx:460-461 | trimming an already trimmed key changes nothing |
| Text.ToLower | app/api/chat/route.ts:36 | lower-casing keeps the length and folds each character on its own |
| Text.ToLowerNoCapitals | app/api/chat/route.ts:36 | a name without capitals is its own lower-case form |
| Text.ToLowerIdempotent | components/dashboard/ai-manager/conversation-provider.tsx:449 | lower-casing twice is lower-casing once |
| Text.Contains | app/api/chat/route.ts:39-44 | `includes` holds exactly when the pattern occurs at some position |
| Text.ContainsWithin | app/api/chat/route.ts:101-119 | an occurrence inside a slice is an occurrence in the whole text |
| Text.ContainsMiddle | app/api/chat/route.ts:118 | a text contains anything it is built around |
| Text.ContainsTransitive | app/api/chat/route.ts:101-119 | what occurs in an occurrence occurs in the whole |
| Uuid.UuidShape | components/dashboard/ai-manager/conversation-provider.tsx:116-118 | the pattern accepts exactly the 36-character strings with dashes at 8, 13, 18 and 23 and hexadecimal digits elsewhere |
| Uuid.CaseInsensitive | components/dashboard/ai-manager/conversation-provider.tsx:467-472 | thanks to the `i` flag, lower-casing neither makes nor breaks a match |
| Uuid.ValidIsNonEmpty | components/dashboard/ai-manager/conversation-provider.tsx:469-472 | an id that passes the test is also truthy |
| Uuid.ExampleAccepted | components/dashboard/ai-manager/conversation-provider.tsx:116-118 | a concrete mixed-case 8-4-4-4-12 id is accepted |
| Uuid.ExampleRejected | components/dashboard/ai-manager/conversation-provider.tsx:116-118 | a well-shaped id with a non-hex letter is rejected |
| Providers.ResolveProvider | components/dashboard/ai-manager/conversation-provider.tsx:449-455 | the session picks OpenAI iff the lower-cased model starts with "gpt" or contains "openai", and Gemini iff it does neither but contains "gemini" |
| Providers.ProviderFromModel | components/dashboard/ai-manager/modern-chat-layout.tsx:48-53 | the layout picks OpenAI iff the lower-cased model starts with "gpt", and Gemini iff it does not but contains "gemini" |
| Providers.ResolversAgree | components/dashboard/ai-manager/modern-chat-layout.tsx:48-53 | the two resolvers agree on every name without "openai"; where they disagree on a known provider, the layout says Gemini and the session says OpenAI |
| Providers.OpenAIWinsOverGemini | components/dashboard/ai-manager/conversation-provider.tsx:450-455 | a name with both markers is OpenAI for the session, and Gemini for the layout unless it starts with "gpt" |
| Providers.OpenAIOnlyInSession | components/dashboard/ai-manager/modern-chat-layout.tsx:48-53 | an "openai" name without a "gpt" prefix or "gemini" is known to the session but not to the key dialog |
| Providers.OpenAINameUnknownToLayout | components/dashboard/ai-manager/modern-chat-layout.tsx:48-53 | the name "OpenAI-o1" has a provider for the session and none for the key dialog |
| Providers.NameResolves | components/dashboard/ai-manager/conversation-provider.tsx:449-455 | each provider's own name resolves back to it in the session; for the layout only "gemini" does |
| Providers.StorageKeysDistinct | components/dashboard/ai-manager/conversation-provider.tsx:457-459 | two providers never share a storage entry |
| Providers.ResolveKey | components/dashboard/ai-manager/conversation-provider.tsx:456-463 | a key is attached iff a provider resolved and its stored entry is not blank; it is then the trimmed entry, non-empty, with no space at either end |
| UiMessages.TextsOf | components/dashboard/ai-manager/chat-messages.tsx:33-37 | the extracted texts are exactly the texts of the message's text parts, and there are none iff no part is a text part |
| UiMessages.TextsOfAppend | components/dashboard/ai-manager/chat-messages.tsx:33-37 | text extraction distributes over concatenating part lists |
| UiMessages.TextsOfFirst | components/dashboard/ai-manager/chat-messages.tsx:33-37 | the first extracted text is the text of the first text part, and the rest are the texts of the parts after it |
| UiMessages.ConcatAppend | components/dashboard/ai-manager/chat-messages.tsx:33-37 | `join("")` distributes over concatenating lists |
| UiMessages.RawContentSplit | components/dashboard/ai-manager/chat-messages.tsx:33-37 | a message's content is the in-order concatenation of its pieces' contents, and non-text parts add nothing |
| UiMessages.SingleTextContent | modules/ai-messages/services/ai-messages-service.ts:79-84 | a message with one text part has exactly that text as content |
| UiMessages.FirstText | components/dashboard/ai-manager/conversation-provider.tsx:246-250 | the title source is present iff the first text part exists and is non-empty, and it is then the text of the first text part, with no text part before it |
| UiMessages.LastUserMessage | components/dashboard/ai-manager/conversation-provider.tsx:243-245 | the result is a user message of the list with no user message after it; there is none iff the list holds no user message |
| JsonView.EscapeChar | app/api/chat/route.ts:122-127 | quote, backslash, newline, carriage return and tab are written as backslash pairs; every other character stands for itself |
| JsonView.Escape | app/api/chat/route.ts:122-127 | escaping never shortens a text |
| JsonView.UnescapeUnit | components/dashboard/ai-manager/chat-messages.tsx:62-69 | decoding one escape unit yields its character and leaves the rest of the text to decode |
| JsonView.UnescapeEscape | components/dashboard/ai-manager/chat-messages.tsx:62-69 | round trip: the corrected single-pass unescape inverts escaping for every text |
| JsonView.ReplaceNoBackslash | components/dashboard/ai-manager/chat-messages.tsx:64-69 | a global replace of a backslash pattern leaves backslash-free text unchanged |
| JsonView.NoBackslashUnchanged | components/dashboard/ai-manager/chat-messages.tsx:64-69 | both unescapings leave backslash-free text unchanged |
| JsonView.AsWrittenBreaksRoundTrip | components/dashboard/ai-manager/chat-messages.tsx:64-69 | the chained replaces turn an escaped "backslash, n" into backslash + newline, while the single pass restores it |
| JsonView.ReplaceStage | components/dashboard/ai-manager/chat-messages.tsx:64-69 | on backslash-free text with some characters escaped, the global replace for one of them decodes exactly its escapes and nothing else |
| JsonView.AsWrittenInvertsWithoutBackslash | components/dashboard/ai-manager/chat-messages.tsx:64-69 | the chained replaces invert the escaping of every text without a backslash |
| JsonView.CaptureValue | components/dashboard/ai-manager/chat-messages.tsx:59-61 | the capture group takes a prefix of the text after the opening quote, made of whole units (characters other than quote and backslash, and backslash pairs), and stops at the end of the text, at an unescaped quote, or before a lone trailing backslash |
| JsonView.HeaderAt | components/dashboard/ai-manager/chat-messages.tsx:59-60 | the position where the pattern matches is the first one at which `"description"`, optional spaces, a colon, optional spaces and a quote begin; there is none iff no position starts that header |
| JsonView.FindDescriptionLeftmost | components/dashboard/ai-manager/chat-messages.tsx:59-62 | the match reports the capture after the leftmost header; there is no match iff no position starts a header |
| JsonView.CapturePlain | components/dashboard/ai-manager/chat-messages.tsx:59-61 | text without quotes or backslashes is captured whole |
| JsonView.CaptureUnit | components/dashboard/ai-manager/chat-messages.tsx:59-61 | a complete escape unit is captured whole, and capturing continues after it |
| JsonView.CaptureComplete | components/dashboard/ai-manager/chat-messages.tsx:59-61 | a finished string literal is captured exactly, up to its closing quote |
| JsonView.CaptureCut | components/dashboard/ai-manager/chat-messages.tsx:59-61 | any cut of a streamed literal is captured as the escape of a prefix of the text being sent: a half-sent backslash pair is held back |
| JsonView.CapturePrefix | components/dashboard/ai-manager/chat-messages.tsx:59-61 | with the corrected single-pass decoder, every cut of a streamed literal, captured and decoded, is a prefix of the text being sent |
| JsonView.CapturePrefixAsWritten | components/dashboard/ai-manager/chat-messages.tsx:59-69 | with the chained replaces, every cut of a streamed literal, captured and decoded, is a prefix of the text being sent when that text has no backslash |
| JsonView.CaptureUnitCut | components/dashboard/ai-manager/chat-messages.tsx:59-61 | with the corrected decoder, a cut inside an escape pair shows nothing or that pair's character, never a stray backslash |
| JsonView.ValueAfterKey | components/dashboard/ai-manager/chat-messages.tsx:59-61 | after `"description": "` the value starts right away (the `\s*` around the colon is skipped) |
| JsonView.ValueAfterTightKey | components/dashboard/ai-manager/chat-messages.tsx:59-61 | after `"description":"` the value starts right away |
| JsonView.TightHeaderFound | components/dashboard/ai-manager/chat-messages.tsx:59-62 | on an object written by `JSON.stringify` the scan captures from right after the header |
| JsonView.HeaderFound | components/dashboard/ai-manager/chat-messages.tsx:59-62 | on a `{"description": "` stream the scan captures from right after the header |
| ChatDisplay.DisplayContent | components/dashboard/ai-manager/chat-messages.tsx:45-46 | non-assistant messages show their raw text unchanged |
| ChatDisplay.SettledShowsRawOrDescription | components/dashboard/ai-manager/chat-messages.tsx:45-82 | when not streaming, the display is the raw text or the `description` the parser found |
| ChatDisplay.StreamingOnlyLastAssistant | components/dashboard/ai-manager/chat-messages.tsx:40-42 | only the last message, only an assistant one, only while streaming, counts as streaming |
| ChatDisplay.CompleteJsonShowsDescription | components/dashboard/ai-manager/chat-messages.tsx:51-55 | braced text whose parsed `description` is a string shows that string |
| ChatDisplay.ParseFailureShowsRawWhenDone | components/dashboard/ai-manager/chat-messages.tsx:75-81 | braced text that fails to parse shows nothing while streaming and the raw text afterwards |
| ChatDisplay.UnfinishedJsonScans | components/dashboard/ai-manager/chat-messages.tsx:45-74 | an answer whose trimmed text opens but does not close an object, while streaming, shows the scanned partial value decoded by the chained replaces; the corrected view decodes the same value in one pass |
| ChatDisplay.PartialFragmentExample | components/dashboard/ai-manager/chat-messages.tsx:56-69 | the fragment `{"description": "Hel` shows `Hel` |
| ChatDisplay.StreamingPlainFragment | components/dashboard/ai-manager/chat-messages.tsx:56-69 | any plain fragment after the header, not ending in space or `}`, is shown exactly |
| ChatDisplay.StreamingShowsPrefix | components/dashboard/ai-manager/chat-messages.tsx:45-82 | for every description without a backslash, at every cut of the streamed answer the shown text is a prefix of the final description |
| ChatDisplay.CorrectedStreamingShowsPrefix | components/dashboard/ai-manager/chat-messages.tsx:45-82 | the corrected display (each escape pair decoded once) shows a prefix of the final description at every cut, for every description |
| ChatDisplay.BracedCutShowsNothing | components/dashboard/ai-manager/chat-messages.tsx:75-79 | a streamed cut that ends in `}` but fails to parse shows nothing, in the display as written and in the corrected one |
| ChatDisplay.ScannedCutIsPrefix | components/dashboard/ai-manager/chat-messages.tsx:56-69 | a scanned streamed cut shows a prefix of the final description: always in the corrected display, and for descriptions without a backslash in the display as written |
| ChatDisplay.AsWrittenDisplayNotPrefix | components/dashboard/ai-manager/chat-messages.tsx:56-69 | while the description backslash-`n` streams, its complete escape is shown as backslash + newline, which is not a prefix of it; the corrected display shows the description |
| ChatDisplay.WholeValueScanned | components/dashboard/ai-manager/chat-messages.tsx:56-69 | a streamed header followed by a value the scan keeps whole shows that value decoded by the chained replaces (by the single pass in the corrected view) |
| ChatDisplay.TypingIndicatorBeforeReply | components/dashboard/ai-manager/chat-messages.tsx:146-149 | the typing dots never coexist with a streaming message, never follow an assistant message, and on an empty list show exactly while loading but not streaming |
| ChatRoute.EffectiveSystemPrompt | app/api/chat/route.ts:18-21 | a non-blank client string is used as it is; a missing, non-string or blank one is replaced by the built-in prompt, so the result is never blank when the built-in one is not |
| ChatRoute.EffectivePromptStable | app/api/chat/route.ts:18-21 | sending back the prompt the route used yields the same prompt, and a blank or non-string prompt is treated exactly as a missing one |
| ChatRoute.RouteProvider | app/api/chat/route.ts:36-51 | "gemini" in the lower-cased name selects Gemini, else "openai" selects OpenAI, else nothing |
| ChatRoute.Prepare | app/api/chat/route.ts:9-63 | a stream starts iff the key is a non-blank string and the name routes; a missing key fails naming the provider (default "openai"), an unknown name fails as unsupported; a started call carries the routed provider, the trimmed key, the effective prompt, the defaulted model and the single user turn |
| ChatRoute.ResponseIdHeader | app/api/chat/route.ts:78-89 | the header is set iff the name contains "openai" and a non-empty response id was reported, and it is that id |
| ChatRoute.Classify | app/api/chat/route.ts:101-119 | the category is one whose words the message contains, and no category checked earlier signals |
| ChatRoute.ClassifyUnique | app/api/chat/route.ts:101-119 | any category that signals, with no earlier one signalling, is the one chosen |
| ChatRoute.ErrorReply | app/api/chat/route.ts:92-132 | anything thrown becomes status 200 with the error flag and the explanation of its message ("Internal Server Error" for non-errors) |
| ChatRoute.Post | app/api/chat/route.ts:7-134 | a stream iff the body was read and preparation succeeded, carrying the prepared call and the `x-response-id` header computed from the provider name and the reported id (so only for an "openai" name); every other outcome is the error reply of what was thrown |
| ChatRoute.RoutesClientName | app/api/chat/route.ts:36-51 | the names the client sends route to their own provider |
| ChatRoute.NamedProviderStarts | app/api/chat/route.ts:27-51 | a body naming a provider as the client does, with a usable key, starts that provider with the trimmed key |
| ChatRoute.RouteAndSessionDisagreeOnBoth | app/api/chat/route.ts:39-44 | a name with both words goes to Gemini at the route, though the session resolved OpenAI |
| ChatRoute.MissingKeyExplained | app/api/chat/route.ts:32 | the thrown missing-key message is classified as a missing key for any provider name without the letters q, R, l, c |
| ChatRoute.NullNameExplained | app/api/chat/route.ts:32 | the same for the name "null" |
| ChatRoute.KeyMissingWhenNoEarlier | app/api/chat/route.ts:113 | once no earlier category signals, the "No API key provided" prefix decides |
| ChatRoute.BlankKeyExplained | app/api/chat/route.ts:27-33 | a body without a usable key that names either provider gets the missing-key explanation, whatever the rest of the body says |
| ChatRoute.BlankKeyNullNameExplained | app/api/chat/route.ts:27-33 | a keyless body whose provider name is JSON null gets the missing-key explanation too |
| ChatRoute.InsufficientQuotaIsQuota | app/api/chat/route.ts:101-112 | an "insufficient_quota" error is always explained as an exceeded quota; the billing branch never sees it |
| ChatRoute.UnrecognisedShowsMessage | app/api/chat/route.ts:117-119 | an unrecognised error's explanation contains the original message |
| ChatRoute.ErrorJsonScanned | app/api/chat/route.ts:122-127 | the display's scan finds the escaped description in the error body; the corrected decoder recovers every description from it, the chained replaces every description without a backslash |
| ConversationsService.NullIfAbsent | modules/ai-conversations/services/ai-conversations-service.ts:47-50 | `?? null` writes a value when one is given and SQL null for both `null` and `undefined` |
| ConversationsService.InsertRow | modules/ai-conversations/services/ai-conversations-service.ts:44-52 | the insert writes every column: user, role and the timestamp, each optional field as its value when given and as null when left out |
| ConversationsService.CreateConversation | modules/ai-conversations/services/ai-conversations-service.ts:41-89 | the first GraphQL record's id, or, when GraphQL fails or returns no record, the fallback's outcome |
| ConversationsService.CreateReportsBackendId | modules/ai-conversations/services/ai-conversations-service.ts:56-88 | a returned id comes from one of the backends; an error only when both paths failed |
| ConversationsService.Nodes | modules/ai-conversations/services/ai-conversations-service.ts:107-118 | one row per edge, in order |
| ConversationsService.ListQueriesAgree | modules/ai-conversations/services/ai-conversations-service.ts:98-132 | both paths ask for the same user's fifty rows by `last_message_at`, latest first; GraphQL puts rows without a `last_message_at` last, the direct query (no placement named, so the database default) first |
| ConversationsService.GetUserConversations | modules/ai-conversations/services/ai-conversations-service.ts:95-140 | GraphQL's nodes in order (none without an edges path); on failure, the fallback's rows (empty for null data) or its error |
| ConversationsService.ListingPathIndependent | modules/ai-conversations/services/ai-conversations-service.ts:95-140 | the listing does not depend on which path answered: the same rows from GraphQL or from the fallback give the same result, and GraphQL without edges equals the fallback's null data |
| ConversationsService.GetConversationById | modules/ai-conversations/services/ai-conversations-service.ts:146-175 | the first edge's node, or null when there is none; the fallback's answer when GraphQL fails |
| ConversationsService.LookupPathIndependent | modules/ai-conversations/services/ai-conversations-service.ts:146-175 | the lookup does not depend on which path answered: GraphQL's edges give the same result as the fallback returning the first edge's row, or no row |
| ConversationsService.GraphQLSet | modules/ai-conversations/services/ai-conversations-service.ts:186-191 | the GraphQL update sets all three columns, with null for what is missing |
| ConversationsService.Optional | modules/ai-conversations/services/ai-conversations-service.ts:207-217 | a fallback field is written only when not `undefined`, as given (null stays null) |
| ConversationsService.FallbackSet | modules/ai-conversations/services/ai-conversations-service.ts:198-217 | the fallback update always sets the timestamp, and sets each field exactly when it is not `undefined` |
| ConversationsService.UpdateConversation | modules/ai-conversations/services/ai-conversations-service.ts:181-228 | GraphQL's assignments when it succeeds, the fallback's when it fails, and the fallback's error with nothing applied when both fail |
| ConversationsService.Apply | modules/ai-conversations/services/ai-conversations-service.ts:219-222 | an update overwrites the assigned columns and keeps the rest |
| ConversationsService.UpdatePathsDiffer | modules/ai-conversations/services/ai-conversations-service.ts:186-217 | the two paths agree on supplied fields; on an `undefined` field GraphQL writes null while the fallback keeps the stored value |
| MessagesService.InsertPayload | modules/ai-messages/services/ai-messages-service.ts:29-40 | the row copies the conversation, role and content, and each optional field (user, response id, metadata) is present iff it was given, with the given value |
| MessagesService.CreateMessage | modules/ai-messages/services/ai-messages-service.ts:17-49 | the caller always sees success; the row is stored iff the insert succeeded |
| MessagesService.ToUIMessage | modules/ai-messages/services/ai-messages-service.ts:75-86 | same id and role, exactly one part, a text part holding the content, and a response id iff the stored one is non-empty |
| MessagesService.LoadedFirstText | modules/ai-messages/services/ai-messages-service.ts:75-86 | the title source of a loaded message is its whole content, unless that is empty |
| MessagesService.GetConversationMessages | modules/ai-messages/services/ai-messages-service.ts:54-96 | a failure yields `undefined`; otherwise one message per row, in order |
| MessagesService.InsertThenList | modules/ai-messages/services/ai-messages-service.ts:29-86 | round trip: an inserted message lists back with its role, content and non-empty response id |
| MessagesService.ListingKeepsOrder | modules/ai-messages/services/ai-messages-service.ts:65-87 | the i-th listed message is the i-th row's id and content |
| Session.EnhancedSystemPrompt | components/dashboard/ai-manager/conversation-provider.tsx:106-109 | the base prompt, extended (with it as prefix) by the context exactly when the context is non-empty, and ending with it |
| Session.BlankPrefix | components/dashboard/ai-manager/conversation-provider.tsx:106-109 | a blank text has a blank prefix |
| Session.RouteKeepsEnhancedPrompt | app/api/chat/route.ts:18-21 | with a non-blank base prompt, the route uses the session's enhanced prompt, so the knowledge-base context reaches the model |
| Session.LoadIdFromUrl | components/dashboard/ai-manager/conversation-provider.tsx:112-129 | a UUID parameter becomes the current id; any other non-empty value clears the id, messages and parameter; no parameter changes nothing |
| Session.ConversationsLoaded | components/dashboard/ai-manager/conversation-provider.tsx:137-178 | without a user or on failure nothing changes; a non-empty list replaces the history row by row, each entry with the row's id, title, response id and description and no messages; an empty one clears the current id |
| Session.ServiceRowsReachSession | components/dashboard/ai-manager/conversation-provider.tsx:137-178 | the service's GraphQL rows become the history entries in order, with their ids, titles, descriptions and response ids |
| Session.LoadedResponseIdFound | components/dashboard/ai-manager/conversation-provider.tsx:435-441 | after loading, looking up the current id finds the response id of the first row with that id, and none when no row has it |
| Session.NextMessageCarriesLoadedResponseId | components/dashboard/ai-manager/conversation-provider.tsx:435-573 | after loading, the next message sent in the current conversation carries the response id of the first row with that id, in the request body and, under a valid id, in the user-message write |
| Session.PreviousResponseIdOf | components/dashboard/ai-manager/conversation-provider.tsx:435-441 | the response id of the first conversation with the current id, as `find` returns it; none when no conversation has that id |
| Session.CreateStep | components/dashboard/ai-manager/conversation-provider.tsx:477-536 | the create write comes first; on success the id becomes current and goes into the URL, "New conversation" is prepended, and the user message is written under a non-empty id; on failure nothing else happens |
| Session.CreatedRowColumns | modules/ai-conversations/services/ai-conversations-service.ts:44-52 | the create write inserts the user and role, null title, description and metadata, and the previous response id when there is one |
| Session.Persist | components/dashboard/ai-manager/conversation-provider.tsx:489-556 | without creation the session is unchanged; under a valid current id and a user id the only write is the user message with the previous response id; otherwise nothing is written |
| Session.Submit | components/dashboard/ai-manager/conversation-provider.tsx:430-576 | a request is sent iff the input is not blank and nothing streams; the input is always cleared; a refused submit changes nothing else; the body carries the current conversation's previous response id, the enhanced prompt, the form's model or `gpt-4o-mini`, and the input; under a valid id the user message is the only write, the body names that id and the list is untouched; with neither creation nor a valid id nothing is written |
| Session.SubmittedDoesNotBlock | components/dashboard/ai-manager/conversation-provider.tsx:433 | only streaming blocks a submit; a submitted request does not |
| Session.SentKeyIsResolved | components/dashboard/ai-manager/conversation-provider.tsx:443-463 | the body carries the session-resolved provider and its stored key, the typed text, and the message is appended with status submitted |
| Session.CreatesOnlyWithoutValidId | components/dashboard/ai-manager/conversation-provider.tsx:466-481 | a conversation is created iff a request goes out without a valid current id for a user with id and role name, and only as the first write |
| Session.CreatedConversationIsCurrent | components/dashboard/ai-manager/conversation-provider.tsx:496-514 | after a successful creation the id is current and in the URL, the new entry heads the list, and the body carries the id |
| Session.CreatedIdSurvivesReload | components/dashboard/ai-manager/conversation-provider.tsx:112-129 | the id a creation puts in the URL is accepted again by the mount effect when it is a UUID |
| Session.SentKeyWellFormed | components/dashboard/ai-manager/conversation-provider.tsx:456-463 | any key the session sends is trimmed, not blank, and accompanied by a provider name |
| Session.RouteOnSessionBody | app/api/chat/route.ts:27-51 | a session body with a key starts the named provider with exactly that key; without one the route fails naming the provider or "null" |
| Session.RouteWithKey | app/api/chat/route.ts:27-51 | a session body with a key starts the named provider with exactly that key |
| Session.RouteWithoutKey | app/api/chat/route.ts:27-33 | a session body without a key fails with the missing-key message |
| Session.KeylessRequestExplained | app/api/chat/route.ts:27-33 | a request sent without a key comes back as the missing-key explanation, with or without a provider name |
| Session.SubmitThenRoute | components/dashboard/ai-manager/conversation-provider.tsx:558-573 | a submitted request with a key streams from the provider the session resolved; without one the route refuses it |
| Session.Description | components/dashboard/ai-manager/conversation-provider.tsx:312-320 | a non-empty parsed `description` is used; otherwise (not parsed, not a string, or empty) the whole content; so it is empty only for empty content |
| Session.DescriptionMatchesSettledView | components/dashboard/ai-manager/conversation-provider.tsx:312-320 | for a braced reply the stored description is what the settled chat shows, except for an empty parsed `description`, where the chat shows nothing and the history keeps the whole content |
| Session.Upsert | components/dashboard/ai-manager/conversation-provider.tsx:302-348 | entries with the id are refreshed in place and others kept; without one, a new entry is appended |
| Session.UpsertKeepsIdsDistinct | components/dashboard/ai-manager/conversation-provider.tsx:302-348 | the upsert keeps ids distinct and in order, and leaves the id present with the new description |
| Session.Finish | components/dashboard/ai-manager/conversation-provider.tsx:206-348 | after a reply the hook's messages are kept when non-empty, the error is cleared and the chat is ready; the current id, input and URL stay; a persisted reply upserts the list with the last user message's title, the parsed description and the response id; a reply that is not persisted leaves the list alone and writes nothing |
| Session.PersistedReplyInHistory | components/dashboard/ai-manager/conversation-provider.tsx:263-348 | after a persisted reply the ids stay distinct, the current conversation is in the list (appended if it was missing), each entry with its id carries the reply's description, response id and messages, and every other entry is unchanged |
| Session.UpsertRecordsReply | components/dashboard/ai-manager/conversation-provider.tsx:302-348 | the upsert keeps ids distinct, adds exactly one entry when the id was missing, records the description, response id and messages on the id's entries, and keeps the rest |
| Session.ErrorReplyNotPersisted | components/dashboard/ai-manager/conversation-provider.tsx:223-237 | a reply flagged `error: true` issues no write and leaves the history alone |
| Session.AssistantSavedUnlessBlank | components/dashboard/ai-manager/conversation-provider.tsx:263-280 | the assistant message is saved iff the reply is persisted and not blank, with its content, role and conversation; any other write is the update |
| Session.UpdateCarriesTitle | components/dashboard/ai-manager/conversation-provider.tsx:286-299 | with a role name the last write updates the conversation with the last user message's first text, the content and the response id |
| Session.OnError | components/dashboard/ai-manager/conversation-provider.tsx:351-363 | exactly one assistant message is appended, holding the error's message or the fallback text |
| Session.LoadMessages | components/dashboard/ai-manager/conversation-provider.tsx:366-414 | non-empty results go on screen and into the matching history entries; an empty result for the URL's id clears it; otherwise nothing changes |
| Session.CreateNewConversation | components/dashboard/ai-manager/conversation-provider.tsx:594-603 | no current id, no messages, no URL parameter; the history stays |
| Session.SelectConversation | components/dashboard/ai-manager/conversation-provider.tsx:606-613 | the id becomes current and goes into the URL; nothing else changes |
| Session.SelectThenLoad | components/dashboard/ai-manager/conversation-provider.tsx:366-394 | selecting then loading shows the messages and stores them in the entry |
| Session.NewConversationIsClean | components/dashboard/ai-manager/conversation-provider.tsx:112-129 | after starting a new conversation, the URL effect has nothing to restore |
| ChatLayout.Mount | components/dashboard/ai-manager/modern-chat-layout.tsx:27-67 | the page opens on "gpt-4o-mini", with the dialog open for it iff no OpenAI key is stored |
| ChatLayout.InitialModelIsOpenAI | components/dashboard/ai-manager/modern-chat-layout.tsx:27 | the initial model belongs to OpenAI for the layout |
| ChatLayout.ModelChange | components/dashboard/ai-manager/modern-chat-layout.tsx:185-198 | the model is always taken; the dialog opens, empty and aimed at it, iff its provider has no stored key |
| ChatLayout.ManageKey | components/dashboard/ai-manager/modern-chat-layout.tsx:199-213 | the dialog opens prefilled with the stored key of the model's provider, or empty and unaimed without a provider |
| ChatLayout.Cancel | components/dashboard/ai-manager/modern-chat-layout.tsx:243-246 | the dialog closes and forgets its model; the rest stays |
| ChatLayout.KeyModel | components/dashboard/ai-manager/modern-chat-layout.tsx:255 | the key is saved for the pending model if any, else for the selected one |
| ChatLayout.SaveKey | components/dashboard/ai-manager/modern-chat-layout.tsx:253-266 | without a provider or with a blank key nothing changes; otherwise the trimmed key is stored under the provider's entry and the dialog closes |
| ChatLayout.SavedKeyResolves | components/dashboard/ai-manager/modern-chat-layout.tsx:253-266 | a saved key resolves to the trimmed input, and the other provider's key is untouched |
| ChatLayout.StoredKeyResolves | components/dashboard/ai-manager/modern-chat-layout.tsx:260-263 | storing the trimmed form of a non-blank key makes it resolvable as is |
| ChatLayout.OtherKeyUntouched | components/dashboard/ai-manager/modern-chat-layout.tsx:260-263 | writing one provider's entry leaves the other's resolution alone |
| ChatLayout.SaveThenNoDialog | components/dashboard/ai-manager/modern-chat-layout.tsx:185-198 | after a save, choosing any model of the same provider does not reopen the dialog |
| ChatLayout.SavedKeyReachesSession | components/dashboard/ai-manager/conversation-provider.tsx:446-463 | a saved key is the one the session attaches, for every model name without "openai" |
| ChatLayout.MainView | components/dashboard/ai-manager/modern-chat-layout.tsx:105-150 | a spinner iff messages load or a conversation is created; otherwise the welcome screen iff the list is empty and nothing is loading, and the list in every other case |
| ChatLayout.WelcomeExcludesTyping | components/dashboard/ai-manager/modern-chat-layout.tsx:133-150 | the welcome screen and the typing dots never show together; while loading, the list is shown |
| ChatLayout.ChatHistory | components/dashboard/ai-manager/modern-chat-layout.tsx:70-77 | one drawer entry per conversation, in order, with its id, title and description |
| ChatLayout.HistoryMirrorsSession | components/dashboard/ai-manager/modern-chat-layout.tsx:70-77 | the drawer lists an id iff the session holds it, and keeps ids distinct |
| Permissions.ResourceActions | components/dashboard/permissions/constants.ts:4-17 | every resource offers VIEW first, without duplicates; only the user list offers more; none offers EXPORT |
| Permissions.UsersActions | components/dashboard/permissions/constants.ts:7-12 | the user list offers exactly view, create, delete and edit |
| Permissions.ViewOnlyElsewhere | components/dashboard/permissions/constants.ts:4-42 | other resources offer VIEW alone; EXPORT has a display name but no resource offers it |
| Permissions.ResourceDisplayName | components/dashboard/permissions/constants.ts:20-30 | a member gets its non-empty table name, an unknown value its raw text |
| Permissions.ActionDisplayName | components/dashboard/permissions/constants.ts:33-42 | a member gets its non-empty table name, an unknown value its raw text |
| Permissions.ResourceNamesDistinct | components/dashboard/permissions/constants.ts:20-30 | two resources share a display name iff they are the same |
| Permissions.ActionNamesDistinct | components/dashboard/permissions/constants.ts:33-42 | two actions share a display name iff they are the same |
| Menu.Grants | components/dashboard-layout/menu-items.tsx:28-32 | `some` holds iff an edge is exactly (resource, VIEW) |
| Menu.HasViewPermission | components/dashboard-layout/menu-items.tsx:19-37 | false without an access list; otherwise true iff (resource, VIEW) is in it |
| Menu.SubseqTail | components/dashboard-layout/menu-items.tsx:39-50 | dropping the head of a subsequence keeps a subsequence |
| Menu.SubseqCons | components/dashboard-layout/menu-items.tsx:39-50 | prepending to the whole keeps a subsequence |
| Menu.FilterMenuItems | components/dashboard-layout/menu-items.tsx:39-50 | the kept entries are a subsequence of the input, and an entry is kept iff it has no resource, is the dashboard, the user is admin or holds VIEW |
| Menu.FilterMenuItemsCounts | components/dashboard-layout/menu-items.tsx:39-50 | each kept entry appears exactly as often as in the input, and a dropped one not at all |
| Menu.FilterMenuSections | components/dashboard-layout/menu-items.tsx:52-62 | the sections left are a subsequence, in their original order, of the filtered input sections; each has entries, every filtered section with entries is left, and each left section is the filtered form of an input section |
| Menu.FilterMenuSectionsCounts | components/dashboard-layout/menu-items.tsx:52-62 | a filtered section with entries appears exactly as often as among all filtered sections, and one without entries not at all |
| Menu.AdminKeepsAll | components/dashboard-layout/menu-items.tsx:41-46 | an administrator's filter keeps every entry |
| Menu.AdminItems | components/dashboard-layout/menu-items.tsx:87-119 | Settings is in the admin area, and first, iff the user is an administrator |
| Menu.AdminItemsFrame | components/dashboard-layout/menu-items.tsx:87-119 | the admin area has four entries for an administrator and three otherwise, ending in Users, Roles and Permissions in that order |
| Menu.GetNavData | components/dashboard-layout/menu-items.tsx:65-144 | one or two sections, "Menu" first and led by the dashboard; an administrator gets both unfiltered |
| Menu.NavShape | components/dashboard-layout/menu-items.tsx:124-139 | the result is the filtered menu followed by the filtered admin area when it is not empty |
| Menu.MenuKeepsDashboard | components/dashboard-layout/menu-items.tsx:41-47 | the dashboard stays first in "Menu" for every user |
| Menu.FilterTwoSections | components/dashboard-layout/menu-items.tsx:52-62 | filtering two sections keeps each one left non-empty, in order |
| Menu.SettingsOnlyForAdmin | components/dashboard-layout/menu-items.tsx:111-119 | Settings appears in the navigation iff the user is an administrator |
| Menu.AdminAreaForGrantees | components/dashboard-layout/menu-items.tsx:87-139 | for a non-administrator the admin area shows iff the role grants VIEW on users, roles or permissions |
| Menu.NavLength | components/dashboard-layout/menu-items.tsx:124-139 | a second section exists iff the admin area keeps an entry |
| Menu.NonEmptyIffSomeKept | components/dashboard-layout/menu-items.tsx:39-61 | a filtered list is empty iff no entry passes |

## Left out

- Network and streaming I/O are not modelled. This covers the chat SDK's `useChat`/`sendMessage` transport, `streamText`, the provider SDKs and the response stream. A started stream is the `StreamCall` the route would hand over, and the streamed text is given as cuts of the final text.
- Backends are not executed. The GraphQL and Supabase calls appear as `Result` parameters, and the query documents are not part of this model. The GraphQL update's `last_message_at` is taken to be set by the query.
- Local storage is a map parameter, not browser state. Toasts, `console` logging, focus handling and `router.replace` are left out; the URL parameter is a field of the session.
- `JSON.parse` and `JSON.stringify` are only partly modelled. Parsing is an oracle reduced to "is `description` a string" and "is `error === true`"; a non-string truthy `description` is not represented. Escaping writes only the five common escapes. Control characters and `\u` escapes are not covered.
- The regular-expression engine is not modelled. The `description` pattern and the UUID pattern are written out as hand scanners that match the same strings.
- `toLowerCase` folds ASCII only. Non-ASCII case folding is left out.
- Strings are sequences of Unicode characters, where JavaScript strings are sequences of UTF-16 code units. Nothing modelled depends on surrogate pairs, so lengths and indices are taken over characters.
- Timestamps are left out: `updatedAt`, `created_at` as a time and the drawer's dates. The clock is the marker `Now`.
- Fresh ids are plain parameters. This covers `crypto.randomUUID`, the SDK's message ids and database ids.
- The knowledge-base context fetch is not modelled. The vector-context route is not part of this model; its outcome is the `context` parameter. The base system prompt is a parameter.
- React scheduling is not modelled. Effects, batching, stale closures, and the ref mirroring the current id all collapse into one handler step that uses the current id. The `messageLoading` and "creating" flags are inputs of the view.
- The authentication service is not part of this model. The profile is given as its user id, role name and role access list.
- Presentational components are left out. This covers the input box, welcome screen, drawer markup and icons.
- The enum string values are not part of this model. Resources, actions and roles are datatypes, and values outside the enums keep their raw text.
- ChatLayout.ChatHistory: keeps a null description as null, where the drawer turns it into `undefined` with `?? undefined`. Both are absent for display.
- JsonView.Escape: states only that escaping never shortens the text. Its meaning is carried by the round-trip lemmas `UnescapeEscape` and `CaptureComplete`.
- ChatRoute.MissingKeyExplained: covers provider names without the letters q, R, l and c. Both names the client sends qualify; "null" is covered by `NullNameExplained`. Other arbitrary names are not classified here.
- ChatDisplay.StreamingShowsPrefix: stated only for descriptions without a backslash. For a description that holds one, the display as written is not always a prefix of it (see Findings). ChatDisplay.CorrectedStreamingShowsPrefix states the property for every description.

## Findings

| source | as written | input that shows it | evidently intended | confidence | as-written member | corrected member |
|---|---|---|---|---|---|---|
| components/dashboard/ai-manager/chat-messages.tsx:64-69 | the streamed `description` is unescaped by five global replaces in sequence, `\n` first and `\\` last | a description holding a backslash followed by `n` is sent as `\\n`; the first replace turns its last two characters into a newline, so the display shows backslash + newline, which the final description does not start with (descriptions without a backslash are shown correctly) | each escape pair decoded once, left to right, so that unescaping inverts the JSON escaping and the streamed display only ever shows a prefix of the description | not executed | ChatDisplay.AsWrittenDisplayNotPrefix (on ChatDisplay.AssistantView, with JsonView.AsWrittenBreaksRoundTrip on JsonView.UnescapeAsWritten) | ChatDisplay.CorrectedStreamingShowsPrefix (on ChatDisplay.CorrectedAssistantView, with JsonView.UnescapeEscape on JsonView.Unescape) |
