/** The chat SDK's message shape as far as the chat code reads it: a role,
    an id, and a list of parts of which only the text parts matter.
 */
module UiMessages {
  import opened Wrappers
  import opened Text

  datatype Role = User | Assistant | System

  /** A message part; reasoning, tool and file parts are all `OtherPart`. */
  datatype Part = TextPart(text: string) | OtherPart

  /** `responseId` is the optional `metadata.responseId`. */
  datatype UIMessage = UIMessage(id: string, role: Role, parts: seq<Part>, responseId: Option<string>)

  /** `parts.filter(p => p.type === "text").map(p => p.text)`. */
  function TextsOf(parts: seq<Part>): (r: seq<string>)
    ensures |r| <= |parts|
    ensures forall t :: t in r <==> TextPart(t) in parts
    ensures r == [] <==> forall i :: 0 <= i < |parts| ==> !parts[i].TextPart?
  {
    if parts == [] then []
    else if parts[0].TextPart? then [parts[0].text] + TextsOf(parts[1..])
    else TextsOf(parts[1..])
  }

  /** Where the texts come from: the first one is the text of the first
      text part, and the rest are the texts of the parts after it. With
      `TextsOfAppend` this pins down order and multiplicity. */
  lemma {:induction false} TextsOfFirst(parts: seq<Part>)
    requires TextsOf(parts) != []
    ensures exists i ::
      && 0 <= i < |parts| && parts[i] == TextPart(TextsOf(parts)[0])
      && (forall j :: 0 <= j < i ==> !parts[j].TextPart?)
      && TextsOf(parts)[1..] == TextsOf(parts[i + 1..])
  {
    if parts[0].TextPart? {
      assert parts[0 + 1..] == parts[1..];
    } else {
      TextsOfFirst(parts[1..]);
      var i :| 0 <= i < |parts[1..]| && parts[1..][i] == TextPart(TextsOf(parts[1..])[0])
        && (forall j :: 0 <= j < i ==> !parts[1..][j].TextPart?)
        && TextsOf(parts[1..])[1..] == TextsOf(parts[1..][i + 1..]);
      assert parts[1..][i + 1..] == parts[i + 2..];
      forall j | 0 <= j < i + 1
        ensures !parts[j].TextPart?
      {
        if j > 0 {
          assert parts[j] == parts[1..][j - 1];
        }
      }
      assert parts[i + 1] == parts[1..][i];
    }
  }

  /** The text of a message: its text parts joined in order. */
  function RawContent(m: UIMessage): string {
    Concat(TextsOf(m.parts))
  }

  /** Text extraction distributes over splitting the part list, so the
      content is the in-order concatenation of the pieces' contents. */
  lemma {:induction false} TextsOfAppend(a: seq<Part>, b: seq<Part>)
    ensures TextsOf(a + b) == TextsOf(a) + TextsOf(b)
  {
    if a != [] {
      assert (a + b)[0] == a[0] && (a + b)[1..] == a[1..] + b;
      TextsOfAppend(a[1..], b);
      if a[0].TextPart? {
        assert TextsOf(a + b) == [a[0].text] + TextsOf(a[1..] + b);
        assert TextsOf(a) == [a[0].text] + TextsOf(a[1..]);
      } else {
        assert TextsOf(a + b) == TextsOf(a[1..] + b);
        assert TextsOf(a) == TextsOf(a[1..]);
      }
    } else {
      assert a + b == b;
    }
  }

  lemma {:induction false} ConcatAppend(a: seq<string>, b: seq<string>)
    ensures Concat(a + b) == Concat(a) + Concat(b)
  {
    if a != [] {
      assert (a + b)[1..] == a[1..] + b;
      ConcatAppend(a[1..], b);
    } else {
      assert a + b == b;
    }
  }

  /** Content is additive over parts; non-text parts contribute nothing. */
  lemma RawContentSplit(id: string, role: Role, a: seq<Part>, b: seq<Part>, rid: Option<string>)
    ensures RawContent(UIMessage(id, role, a + b, rid))
         == RawContent(UIMessage(id, role, a, rid)) + RawContent(UIMessage(id, role, b, rid))
    ensures RawContent(UIMessage(id, role, a + [OtherPart] + b, rid)) == RawContent(UIMessage(id, role, a + b, rid))
  {
    TextsOfAppend(a, b);
    ConcatAppend(TextsOf(a), TextsOf(b));
    TextsOfAppend(a + [OtherPart], b);
    TextsOfAppend(a, [OtherPart]);
    assert TextsOf([OtherPart]) == [];
    assert TextsOf(a) + [] == TextsOf(a);
  }

  /** A message built from one text part has exactly that text as content. */
  lemma SingleTextContent(id: string, role: Role, text: string, rid: Option<string>)
    ensures RawContent(UIMessage(id, role, [TextPart(text)], rid)) == text
  {
    assert TextsOf([TextPart(text)]) == [text];
    assert Concat([text]) == text + Concat([]);
  }

  /** `parts.filter(text).map(text)[0] || null`: the first text part, where
      an empty first text counts as absent (it is falsy). */
  function FirstText(m: UIMessage): (r: Option<string>)
    ensures r.Some? <==> |TextsOf(m.parts)| > 0 && TextsOf(m.parts)[0] != []
    ensures r.Some? ==> r.value == TextsOf(m.parts)[0]
    ensures r.Some? ==> exists i ::
      && 0 <= i < |m.parts| && m.parts[i] == TextPart(r.value)
      && forall j :: 0 <= j < i ==> !m.parts[j].TextPart?
  {
    var texts := TextsOf(m.parts);
    if |texts| > 0 && texts[0] != [] then TextsOfFirst(m.parts); Some(texts[0]) else None
  }

  /** `messages.filter(m => m.role === "user").pop()`: the last user message. */
  function LastUserMessage(ms: seq<UIMessage>): (r: Option<UIMessage>)
    ensures r.Some? ==> r.value in ms && r.value.role == User
    ensures r.Some? ==> exists i :: 0 <= i < |ms| && ms[i] == r.value && forall j :: i < j < |ms| ==> ms[j].role != User
    ensures r.None? <==> forall j :: 0 <= j < |ms| ==> ms[j].role != User
  {
    if ms == [] then None
    else if ms[|ms| - 1].role == User then Some(ms[|ms| - 1])
    else
      var r := LastUserMessage(ms[..|ms| - 1]);
      assert forall j :: 0 <= j < |ms| - 1 ==> ms[..|ms| - 1][j] == ms[j];
      r
  }
}
