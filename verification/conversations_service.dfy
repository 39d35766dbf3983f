/** The conversation store: create, list, fetch and update rows of the
    `ai_conversations` table. Every operation first tries the GraphQL
    backend and, if that throws, repeats the work against the database
    directly; an error from that fallback is passed on to the caller.

    Neither backend is executed here: each operation receives what the
    GraphQL call and the database call would produce as parameters, and
    the clock appears only as the marker `Now`.
 */
module ConversationsService {
  import opened Wrappers

  /** The columns the service writes. */
  datatype Column = UserIdCol | UserRoleCol | TitleCol | DescriptionCol | MetadataCol
                  | PreviousResponseIdCol | LastMessageAtCol

  /** A value written to a column; `Now` is the time of the write. */
  datatype Value = Given(text: string) | SqlNull | Now

  /** `x ?? null`: a present value is written, `null` and `undefined` both
      become SQL null. */
  function NullIfAbsent(x: Nullable<string>): (v: Value)
    ensures v.Given? <==> x.Val?
    ensures v.Given? ==> v.text == x.value
    ensures !v.Now?
  {
    match x
    case Val(s) => Given(s)
    case _ => SqlNull
  }

  /** `CreateAIConversationInput`; `metadata` is kept as its serialised text. */
  datatype CreateInput = CreateInput(
    userId: string,
    userRole: string,
    title: Nullable<string>,
    description: Nullable<string>,
    metadata: Nullable<string>,
    previousResponseId: Nullable<string>)

  /** The row both paths insert: every column is written, with null for
      each optional field the caller left out. */
  function InsertRow(input: CreateInput): (row: map<Column, Value>)
    ensures row.Keys == {UserIdCol, UserRoleCol, TitleCol, DescriptionCol, MetadataCol,
                         PreviousResponseIdCol, LastMessageAtCol}
    ensures row[UserIdCol] == Given(input.userId) && row[UserRoleCol] == Given(input.userRole)
    ensures row[LastMessageAtCol] == Now
    ensures row[TitleCol] == SqlNull <==> !input.title.Val?
    ensures row[DescriptionCol] == SqlNull <==> !input.description.Val?
    ensures row[MetadataCol] == SqlNull <==> !input.metadata.Val?
    ensures row[PreviousResponseIdCol] == SqlNull <==> !input.previousResponseId.Val?
    ensures input.title.Val? ==> row[TitleCol] == Given(input.title.value)
    ensures input.description.Val? ==> row[DescriptionCol] == Given(input.description.value)
    ensures input.metadata.Val? ==> row[MetadataCol] == Given(input.metadata.value)
    ensures input.previousResponseId.Val? ==> row[PreviousResponseIdCol] == Given(input.previousResponseId.value)
  {
    map[
      UserIdCol := Given(input.userId),
      UserRoleCol := Given(input.userRole),
      TitleCol := NullIfAbsent(input.title),
      DescriptionCol := NullIfAbsent(input.description),
      MetadataCol := NullIfAbsent(input.metadata),
      PreviousResponseIdCol := NullIfAbsent(input.previousResponseId),
      LastMessageAtCol := Now]
  }

  /** `createConversation`. `inserted` is what the GraphQL insert reported
      (the ids of the records it returned, or a failure) and `fallback` the
      outcome of the direct insert. A GraphQL answer with no records counts
      as a failure of that path. */
  function CreateConversation(inserted: Result<seq<string>, string>, fallback: Result<string, string>): (r: Result<string, string>)
    ensures inserted.Success? && |inserted.value| > 0 ==> r == Success(inserted.value[0])
    ensures !(inserted.Success? && |inserted.value| > 0) ==> r == fallback
  {
    if inserted.Success? && |inserted.value| > 0 then Success(inserted.value[0]) else fallback
  }

  /** The id handed back always comes from one of the two backends, and an
      error is reported only when both paths failed. */
  lemma CreateReportsBackendId(inserted: Result<seq<string>, string>, fallback: Result<string, string>)
    ensures var r := CreateConversation(inserted, fallback);
      (r.Success? ==> (inserted.Success? && r.value in inserted.value) || fallback == r)
      && (r.Failure? ==> fallback.Failure? && !(inserted.Success? && |inserted.value| > 0))
  {
  }

  /** A row of `ai_conversations` as the service returns it. */
  datatype ConversationRow = ConversationRow(
    id: string,
    title: Option<string>,
    description: Option<string>,
    lastMessageAt: Option<string>,
    createdAt: Option<string>,
    previousResponseId: Option<string>)

  datatype Edge = Edge(node: ConversationRow)

  /** `edges.map(edge => edge.node)`. */
  function Nodes(edges: seq<Edge>): (r: seq<ConversationRow>)
    ensures |r| == |edges|
    ensures forall i :: 0 <= i < |r| ==> r[i] == edges[i].node
  {
    seq(|edges|, i requires 0 <= i < |edges| => edges[i].node)
  }

  datatype Direction = Ascending | Descending

  /** Where rows whose sort column is null go. */
  datatype NullPlacement = NullsFirst | NullsLast

  /** What a listing asks for: whose rows, the sort with its null
      placement, and the page size. */
  datatype ListQuery = ListQuery(userId: string, sortedBy: Column, direction: Direction, nulls: NullPlacement, limit: nat)

  /** The GraphQL listing: the user filter and limit 50 from the variables,
      the sort from the query's default `last_message_at: DescNullsLast`. */
  function GraphQLListQuery(userId: string): ListQuery {
    ListQuery(userId, LastMessageAtCol, Descending, NullsLast, 50)
  }

  /** The direct listing: `.eq("user_id", ...)`, `.order("last_message_at",
      { ascending: false })`, `.limit(50)`. No null placement is named, so
      the database's default for a descending sort applies: nulls first. */
  function FallbackListQuery(userId: string): ListQuery {
    ListQuery(userId, LastMessageAtCol, Descending, NullsFirst, 50)
  }

  /** Both paths ask for the same user's fifty rows by `last_message_at`,
      latest first; they differ only in where rows without a
      `last_message_at` go. */
  lemma ListQueriesAgree(userId: string)
    ensures var g := GraphQLListQuery(userId);
      var f := FallbackListQuery(userId);
      && g.userId == f.userId == userId
      && g.sortedBy == f.sortedBy == LastMessageAtCol
      && g.direction == f.direction == Descending
      && g.limit == f.limit == 50
      && g.nulls != f.nulls
      && g == f.(nulls := g.nulls)
  {
  }

  /** `getUserConversations`. `listed` is the GraphQL answer (`None` when
      the response has no edges path) and `fallback` the direct query's
      answer (`None` for a null `data`). */
  function GetUserConversations(
    listed: Result<Option<seq<Edge>>, string>,
    fallback: Result<Option<seq<ConversationRow>>, string>): (r: Result<seq<ConversationRow>, string>)
    ensures listed.Success? ==>
      && r.Success?
      && (listed.value.None? ==> r.value == [])
      && (listed.value.Some? ==>
            && |r.value| == |listed.value.value|
            && forall i :: 0 <= i < |r.value| ==> r.value[i] == listed.value.value[i].node)
    ensures listed.Failure? && fallback.Failure? ==> r == Failure(fallback.error)
    ensures listed.Failure? && fallback.Success? ==> r == Success(fallback.value.GetOr([]))
  {
    match listed
    case Success(edges) => Success(Nodes(edges.GetOr([])))
    case Failure(_) =>
      match fallback
      case Failure(e) => Failure(e)
      case Success(data) => Success(data.GetOr([]))
  }
  /** The listing does not depend on which path answered: the rows
      GraphQL's edges hold, or the same rows from the fallback, give the
      same result, and a response without edges is the fallback's null
      data. */
  lemma ListingPathIndependent(edges: seq<Edge>, e: string, fallback: Result<Option<seq<ConversationRow>>, string>)
    ensures GetUserConversations(Success(Some(edges)), fallback) ==
            GetUserConversations(Failure(e), Success(Some(Nodes(edges))))
    ensures GetUserConversations(Success(None), fallback) == GetUserConversations(Failure(e), Success(None))
  {
  }

  /** `getConversationById`: the node of the first edge, or null. */
  function GetConversationById(
    found: Result<Option<seq<Edge>>, string>,
    fallback: Result<Option<ConversationRow>, string>): (r: Result<Option<ConversationRow>, string>)
    ensures found.Success? ==>
      && r.Success?
      && (r.value.Some? <==> found.value.Some? && |found.value.value| > 0)
      && (r.value.Some? ==> r.value.value == found.value.value[0].node)
    ensures found.Failure? ==> r == fallback
  {
    match found
    case Success(edges) =>
      if edges.Some? && |edges.value| > 0 then Success(Some(edges.value[0].node)) else Success(None)
    case Failure(_) => fallback
  }

  /** The lookup does not depend on which path answered: GraphQL's edges
      give the fallback's answer for the first edge's row, or for no row. */
  lemma LookupPathIndependent(edges: seq<Edge>, e: string, fallback: Result<Option<ConversationRow>, string>)
    ensures GetConversationById(Success(Some(edges)), fallback) ==
            GetConversationById(Failure(e), Success(if |edges| > 0 then Some(edges[0].node) else None))
    ensures GetConversationById(Success(None), fallback) == GetConversationById(Failure(e), Success(None))
  {
  }

  /** `UpdateAIConversationInput`. */
  datatype UpdateInput = UpdateInput(
    id: string,
    title: Nullable<string>,
    description: Nullable<string>,
    previousResponseId: Nullable<string>)

  /** The field of the input that feeds an optional column. */
  function FieldFor(input: UpdateInput, c: Column): Nullable<string> {
    match c
    case TitleCol => input.title
    case DescriptionCol => input.description
    case PreviousResponseIdCol => input.previousResponseId
    case _ => Undef
  }

  /** The columns an update may touch besides the timestamp. */
  predicate Updatable(c: Column) {
    c == TitleCol || c == DescriptionCol || c == PreviousResponseIdCol
  }

  /** The GraphQL `set`: all three columns, null for what is missing, and
      the timestamp. */
  function GraphQLSet(input: UpdateInput): (w: map<Column, Value>)
    ensures w.Keys == {TitleCol, DescriptionCol, PreviousResponseIdCol, LastMessageAtCol}
    ensures w[LastMessageAtCol] == Now
    ensures forall c :: Updatable(c) ==> w[c] == NullIfAbsent(FieldFor(input, c))
  {
    map[
      TitleCol := NullIfAbsent(input.title),
      DescriptionCol := NullIfAbsent(input.description),
      PreviousResponseIdCol := NullIfAbsent(input.previousResponseId),
      LastMessageAtCol := Now]
  }

  /** One optional column of the fallback update: written only when the
      field is not `undefined` (an explicit null is written as null). */
  function Optional(c: Column, x: Nullable<string>): (w: map<Column, Value>)
    ensures w.Keys == if x.Undef? then {} else {c}
    ensures c in w ==> w[c] == NullIfAbsent(x)
  {
    if x.Undef? then map[] else map[c := NullIfAbsent(x)]
  }

  /** The fallback `updateData`: the timestamp, plus each field that is
      not `undefined`. */
  function FallbackSet(input: UpdateInput): (w: map<Column, Value>)
    ensures LastMessageAtCol in w && w[LastMessageAtCol] == Now
    ensures w.Keys <= {TitleCol, DescriptionCol, PreviousResponseIdCol, LastMessageAtCol}
    ensures TitleCol in w <==> !input.title.Undef?
    ensures DescriptionCol in w <==> !input.description.Undef?
    ensures PreviousResponseIdCol in w <==> !input.previousResponseId.Undef?
    ensures TitleCol in w ==> w[TitleCol] == NullIfAbsent(input.title)
    ensures DescriptionCol in w ==> w[DescriptionCol] == NullIfAbsent(input.description)
    ensures PreviousResponseIdCol in w ==> w[PreviousResponseIdCol] == NullIfAbsent(input.previousResponseId)
  {
    var w0 := map[LastMessageAtCol := Now];
    var w1 := w0 + Optional(PreviousResponseIdCol, input.previousResponseId);
    AddOptional(w0, PreviousResponseIdCol, input.previousResponseId);
    var w2 := w1 + Optional(TitleCol, input.title);
    AddOptional(w1, TitleCol, input.title);
    var w3 := w2 + Optional(DescriptionCol, input.description);
    AddOptional(w2, DescriptionCol, input.description);
    w3
  }

  /** Adding one optional column adds that column alone, and only when the
      field is given. */
  lemma AddOptional(w: map<Column, Value>, c: Column, x: Nullable<string>)
    requires c !in w
    ensures forall k :: k in w + Optional(c, x) <==> k in w || (k == c && !x.Undef?)
    ensures forall k :: k in w ==> (w + Optional(c, x))[k] == w[k]
    ensures c in w + Optional(c, x) ==> (w + Optional(c, x))[c] == NullIfAbsent(x)
  {
  }

  /** What an update did: its result, and the assignments that reached the
      row (none when both paths failed). */
  datatype UpdateOutcome = UpdateOutcome(result: Result<(), string>, applied: map<Column, Value>)

  /** `updateConversation`. */
  function UpdateConversation(input: UpdateInput, viaGraphQL: Result<(), string>, fallback: Result<(), string>): (r: UpdateOutcome)
    ensures viaGraphQL.Success? ==> r == UpdateOutcome(Success(()), GraphQLSet(input))
    ensures viaGraphQL.Failure? && fallback.Success? ==> r == UpdateOutcome(Success(()), FallbackSet(input))
    ensures viaGraphQL.Failure? && fallback.Failure? ==> r.result == fallback && r.applied == map[]
  {
    if viaGraphQL.Success? then UpdateOutcome(Success(()), GraphQLSet(input))
    else match fallback
      case Success(_) => UpdateOutcome(Success(()), FallbackSet(input))
      case Failure(e) => UpdateOutcome(Failure(e), map[])
  }

  /** A row after an update: changes columns take their new values. */
  function Apply(row: map<Column, Value>, changes: map<Column, Value>): (r: map<Column, Value>)
    ensures r.Keys == row.Keys + changes.Keys
    ensures forall c :: c in changes ==> r[c] == changes[c]
    ensures forall c :: c in row && c !in changes ==> r[c] == row[c]
  {
    row + changes
  }

  /** The two paths agree on every field the caller supplied, but differ on
      a field left `undefined`: the GraphQL path overwrites it with null,
      the fallback leaves the stored value alone. */
  lemma UpdatePathsDiffer(input: UpdateInput, row: map<Column, Value>, c: Column)
    requires Updatable(c) && c in row
    ensures !FieldFor(input, c).Undef? ==>
      Apply(row, GraphQLSet(input))[c] == Apply(row, FallbackSet(input))[c] == NullIfAbsent(FieldFor(input, c))
    ensures FieldFor(input, c).Undef? ==>
      Apply(row, GraphQLSet(input))[c] == SqlNull && Apply(row, FallbackSet(input))[c] == row[c]
  {
  }
}
