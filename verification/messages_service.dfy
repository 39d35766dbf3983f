/** The message store: insert one row of `ai_messages`, and read a
    conversation's rows back as chat messages. Unlike the conversation
    store there is no fallback path: an insert that fails is logged and
    forgotten, and a listing that fails yields `undefined`.

    The GraphQL backend is not executed; its outcome is a parameter.
 */
module MessagesService {
  import opened Wrappers
  import opened UiMessages

  /** `CreateAIMessageInput`; `metadata` is kept as its serialised text. */
  datatype CreateMessageInput = CreateMessageInput(
    conversationId: string,
    userId: Nullable<string>,
    role: Role,
    content: string,
    providerResponseId: Nullable<string>,
    metadata: Nullable<string>)

  /** The object handed to the insert; `None` is SQL null. */
  datatype MessageRow = MessageRow(
    conversationId: string,
    userId: Option<string>,
    role: Role,
    content: string,
    providerResponseId: Option<string>,
    metadata: Option<string>)

  /** The insert payload: the optional fields written as null when they
      are `undefined` or null, everything else copied. */
  function InsertPayload(input: CreateMessageInput): (row: MessageRow)
    ensures row.userId.Some? <==> input.userId.Val?
    ensures row.providerResponseId.Some? <==> input.providerResponseId.Val?
    ensures row.metadata.Some? <==> input.metadata.Val?
    ensures row.userId.Some? ==> row.userId.value == input.userId.value
    ensures row.providerResponseId.Some? ==> row.providerResponseId.value == input.providerResponseId.value
    ensures row.metadata.Some? ==> row.metadata.value == input.metadata.value
    ensures row.conversationId == input.conversationId && row.role == input.role && row.content == input.content
  {
    MessageRow(input.conversationId, input.userId.OrNull(), input.role, input.content,
      input.providerResponseId.OrNull(), input.metadata.OrNull())
  }

  /** What an insert did: its result, and the rows it stored. */
  datatype InsertOutcome = InsertOutcome(result: Result<(), string>, stored: seq<MessageRow>)

  /** `createMessage`: `viaGraphQL` is the outcome of the insert. A failure
      is swallowed, so the caller always sees success. */
  function CreateMessage(input: CreateMessageInput, viaGraphQL: Result<(), string>): (r: InsertOutcome)
    ensures r.result.Success?
    ensures viaGraphQL.Success? <==> r.stored == [InsertPayload(input)]
    ensures viaGraphQL.Failure? <==> r.stored == []
  {
    match viaGraphQL
    case Success(_) => InsertOutcome(Success(()), [InsertPayload(input)])
    case Failure(_) => InsertOutcome(Success(()), [])
  }

  /** A stored row as the listing query returns it. */
  datatype MessageNode = MessageNode(
    id: string,
    role: Role,
    content: string,
    createdAt: string,
    providerResponseId: Option<string>)

  /** One edge as a chat message: same id and role, one text part holding
      the content, and a response id exactly when the stored one is a
      non-empty string. */
  function ToUIMessage(n: MessageNode): (m: UIMessage)
    ensures m.id == n.id && m.role == n.role
    ensures m.responseId.Some? <==> n.providerResponseId.Some? && n.providerResponseId.value != []
    ensures m.responseId.Some? ==> m.responseId == n.providerResponseId
    ensures m.parts == [TextPart(n.content)]
    ensures RawContent(m) == n.content
  {
    SingleTextContent(n.id, n.role, n.content,
      if n.providerResponseId.Some? && n.providerResponseId.value != [] then n.providerResponseId else None);
    UIMessage(n.id, n.role, [TextPart(n.content)],
      if n.providerResponseId.Some? && n.providerResponseId.value != [] then n.providerResponseId else None)
  }

  /** A loaded message gives the title source its whole content: the
      first text of a stored row is its content, unless that is empty. */
  lemma LoadedFirstText(n: MessageNode)
    ensures FirstText(ToUIMessage(n)) == (if n.content != [] then Some(n.content) else None)
  {
    assert TextsOf(ToUIMessage(n).parts) == [n.content];
  }

  /** `getConversationMessages`: `listed` is the GraphQL answer (`None`
      inside when the response lacks the edges path). A failure yields
      `None`, the `undefined` the function falls off the end with. */
  function GetConversationMessages(listed: Result<Option<seq<MessageNode>>, string>): (r: Option<seq<UIMessage>>)
    ensures r.None? <==> listed.Failure?
    ensures listed.Success? ==>
      && |r.value| == |listed.value.GetOr([])|
      && forall i :: 0 <= i < |r.value| ==> r.value[i] == ToUIMessage(listed.value.GetOr([])[i])
  {
    match listed
    case Failure(_) => None
    case Success(edges) =>
      var ns := edges.GetOr([]);
      Some(seq(|ns|, i requires 0 <= i < |ns| => ToUIMessage(ns[i])))
  }

  /** The row the database holds for an insert, once it has an id and a
      creation time. */
  function Stored(row: MessageRow, id: string, createdAt: string): MessageNode {
    MessageNode(id, row.role, row.content, createdAt, row.providerResponseId)
  }

  /** Round trip through the store: a message inserted and then listed
      comes back with its role and content, and with its provider response
      id when that was a non-empty string. */
  lemma InsertThenList(input: CreateMessageInput, id: string, createdAt: string)
    ensures var m := ToUIMessage(Stored(InsertPayload(input), id, createdAt));
      && m.id == id
      && m.role == input.role
      && RawContent(m) == input.content
      && (m.responseId.Some? <==> input.providerResponseId.Val? && input.providerResponseId.value != [])
      && (m.responseId.Some? ==> m.responseId.value == input.providerResponseId.value)
  {
  }

  /** Listing preserves the order of the rows: the i-th message's content
      is the i-th row's content. */
  lemma ListingKeepsOrder(nodes: seq<MessageNode>, i: nat)
    requires i < |nodes|
    ensures var r := GetConversationMessages(Success(Some(nodes)));
      r.Some? && |r.value| == |nodes| && r.value[i].id == nodes[i].id && RawContent(r.value[i]) == nodes[i].content
  {
  }
}
