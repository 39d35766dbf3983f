/** What the message list shows for each message (chat-messages.tsx): user
    text as typed, and for the assistant the `description` pulled out of
    its JSON answer, progressively while it streams.
 */
module ChatDisplay {
  import opened Wrappers
  import opened Text
  import opened UiMessages
  import opened JsonView

  /** Only the last message, only while streaming, only the assistant's. */
  predicate IsCurrentlyStreaming(index: nat, count: nat, m: UIMessage, streaming: bool) {
    index + 1 == count && streaming && m.role == Assistant
  }

  /** The text rendered for one message. `streamingNow` is
      `IsCurrentlyStreaming` of its position; `parse` is `JSON.parse`. */
  function DisplayContent(m: UIMessage, streamingNow: bool, parse: string -> Parse): (r: string)
    ensures m.role != Assistant ==> r == RawContent(m)
  {
    if m.role != Assistant then RawContent(m) else AssistantView(RawContent(m), streamingNow, parse)
  }

  /** The assistant branch as the code writes it: the partial value is
      decoded by the chained replaces. */
  function AssistantView(raw: string, streamingNow: bool, parse: string -> Parse): string {
    AssistantViewWith(raw, streamingNow, parse, UnescapeAsWritten)
  }

  /** The assistant branch with each escape pair decoded once, left to
      right: the display the chained replaces were meant to produce. */
  function CorrectedAssistantView(raw: string, streamingNow: bool, parse: string -> Parse): string {
    AssistantViewWith(raw, streamingNow, parse, Unescape)
  }

  /** The assistant branch for a given decoder of the scanned value:
      complete JSON shows its string `description`, an unfinished object
      being streamed shows the scanned partial value, anything else shows
      the raw text (or nothing, while streaming, when braced text fails to
      parse). */
  function AssistantViewWith(raw: string, streamingNow: bool, parse: string -> Parse, decode: string -> string): string {
    if IsBlank(raw) then raw
    else
      var t := Trim(raw);
      if StartsWith(t, "{") && EndsWith(t, "}") then
        match parse(raw)
        case NotJson => if streamingNow then [] else raw
        case Parsed(Some(d), _) => d
        case Parsed(None, _) => raw
      else if streamingNow && StartsWith(t, "{") then PartialView(raw, decode)
      else raw
  }

  /** The partial `description` of an unfinished answer, decoded; nothing
      when the scan finds no header or an empty value. */
  function PartialView(raw: string, decode: string -> string): string {
    match FindDescription(raw)
    case Some(v) => if v == [] then [] else decode(v)
    case None => []
  }

  /** Once streaming is over nothing is scanned: the display is the raw
      text or the `description` that `JSON.parse` found in it. */
  lemma SettledShowsRawOrDescription(raw: string, parse: string -> Parse)
    ensures var r := AssistantView(raw, false, parse);
      r == raw || (parse(raw).Parsed? && parse(raw).description == Some(r))
  {
  }

  /** A message whose position says it is streaming is the last assistant one. */
  lemma StreamingOnlyLastAssistant(index: nat, ms: seq<UIMessage>, streaming: bool)
    requires index < |ms| && IsCurrentlyStreaming(index, |ms|, ms[index], streaming)
    ensures index == |ms| - 1 && ms[index].role == Assistant && streaming
  {
  }

  /** Complete JSON whose `description` is a string shows that string,
      streaming or not. */
  lemma CompleteJsonShowsDescription(raw: string, streamingNow: bool, parse: string -> Parse, d: string)
    requires StartsWith(Trim(raw), "{") && EndsWith(Trim(raw), "}")
    requires parse(raw).Parsed? && parse(raw).description == Some(d)
    ensures AssistantView(raw, streamingNow, parse) == d
  {
    assert !IsBlank(raw);
  }

  /** Braced text that does not parse: nothing while streaming, the raw
      text once streaming is over. */
  lemma ParseFailureShowsRawWhenDone(raw: string, streamingNow: bool, parse: string -> Parse)
    requires StartsWith(Trim(raw), "{") && EndsWith(Trim(raw), "}")
    requires parse(raw).NotJson?
    ensures AssistantView(raw, streamingNow, parse) == (if streamingNow then [] else raw)
    ensures CorrectedAssistantView(raw, streamingNow, parse) == (if streamingNow then [] else raw)
  {
    assert !IsBlank(raw);
  }

  /** The scan branch: an assistant answer whose trimmed text opens a brace
      but does not close one shows the partial `description` while
      streaming, decoded by the chained replaces (and by the single pass in
      the corrected view). */
  lemma UnfinishedJsonScans(raw: string, parse: string -> Parse)
    requires StartsWith(Trim(raw), "{")
    requires !EndsWith(Trim(raw), "}")
    ensures AssistantView(raw, true, parse) == PartialView(raw, UnescapeAsWritten)
    ensures CorrectedAssistantView(raw, true, parse) == PartialView(raw, Unescape)
  {
    assert !IsBlank(raw);
  }

  /** Text that starts with a brace still starts with one once trimmed. */
  lemma OpensBrace(raw: string)
    requires raw != [] && raw[0] == '{'
    ensures StartsWith(Trim(raw), "{")
  {
    TrimKeepsFirst(raw);
  }

  /** The example of a fragment mid-stream: `{"description": "Hel` shows `Hel`. */
  lemma PartialFragmentExample(id: string, text: string, parse: string -> Parse)
    requires text == "Hel"
    ensures DisplayContent(UIMessage(id, Assistant, [TextPart(StreamHeader + text)], None), true, parse) == text
  {
    assert text[2] == 'l';
    StreamingPlainFragment(id, text, parse);
  }

  /** A streamed fragment of plain text after the header, not yet ending in
      a brace, is shown exactly as it stands. */
  lemma StreamingPlainFragment(id: string, text: string, parse: string -> Parse)
    requires text != [] && '"' !in text && '\\' !in text
    requires !IsSpace(text[|text| - 1]) && text[|text| - 1] != '}'
    ensures DisplayContent(UIMessage(id, Assistant, [TextPart(StreamHeader + text)], None), true, parse) == text
  {
    var raw := StreamHeader + text;
    SingleTextContent(id, Assistant, raw, None);
    assert raw[0] == '{' && raw[|raw| - 1] == text[|text| - 1];
    TrimKeepsLast(raw);
    assert !EndsWith(Trim(raw), "}");
    OpensBrace(raw);
    UnfinishedJsonScans(raw, parse);
    CapturePlain(text);
    HeaderFound(text);
    NoBackslashUnchanged(text);
  }

  /** Progressive display is monotone with respect to the final text, for
      descriptions without a backslash: at every cut of a streamed
      `{"description": "…` answer the shown text is a prefix of the
      description being sent. The only requirement on `JSON.parse` is that
      it rejects the unfinished text, which any parser does since its
      string literal is not closed. */
  lemma StreamingShowsPrefix(d: string, n: nat, parse: string -> Parse)
    requires n <= |Escape(d)|
    requires '\\' !in d
    requires parse(StreamHeader + Escape(d)[..n]).NotJson?
    ensures IsPrefix(AssistantView(StreamHeader + Escape(d)[..n], true, parse), d)
  {
    var raw := StreamHeader + Escape(d)[..n];
    if EndsWith(Trim(raw), "}") {
      BracedCutShowsNothing(raw, parse);
    } else {
      ScannedCutIsPrefix(d, n, parse);
    }
  }

  /** The same for the corrected display, and for every description. */
  lemma CorrectedStreamingShowsPrefix(d: string, n: nat, parse: string -> Parse)
    requires n <= |Escape(d)|
    requires parse(StreamHeader + Escape(d)[..n]).NotJson?
    ensures IsPrefix(CorrectedAssistantView(StreamHeader + Escape(d)[..n], true, parse), d)
  {
    var raw := StreamHeader + Escape(d)[..n];
    if EndsWith(Trim(raw), "}") {
      BracedCutShowsNothing(raw, parse);
    } else {
      ScannedCutIsPrefix(d, n, parse);
    }
  }

  /** The braced branch of the prefix lemmas: a cut that happens to end in
      `}` fails to parse and shows nothing while streaming. */
  lemma BracedCutShowsNothing(raw: string, parse: string -> Parse)
    requires raw != [] && raw[0] == '{' && EndsWith(Trim(raw), "}")
    requires parse(raw).NotJson?
    ensures AssistantView(raw, true, parse) == []
    ensures CorrectedAssistantView(raw, true, parse) == []
  {
    TrimKeepsFirst(raw);
    ParseFailureShowsRawWhenDone(raw, true, parse);
  }

  /** The scan branch of the prefix lemmas: the corrected display shows a
      prefix of every description, the display as written of every
      description without a backslash. */
  lemma ScannedCutIsPrefix(d: string, n: nat, parse: string -> Parse)
    requires n <= |Escape(d)|
    requires !EndsWith(Trim(StreamHeader + Escape(d)[..n]), "}")
    ensures IsPrefix(CorrectedAssistantView(StreamHeader + Escape(d)[..n], true, parse), d)
    ensures '\\' !in d ==> IsPrefix(AssistantView(StreamHeader + Escape(d)[..n], true, parse), d)
  {
    var cut := Escape(d)[..n];
    var raw := StreamHeader + cut;
    assert raw[0] == '{';
    OpensBrace(raw);
    UnfinishedJsonScans(raw, parse);
    HeaderFound(cut);
    CapturePrefix(d, n);
    if '\\' !in d {
      CapturePrefixAsWritten(d, n);
    }
  }

  /** The display as written is not monotone once the description holds a
      backslash: while the description backslash-`n` is streamed, its
      complete escape `\\n` is shown as backslash and newline, which the
      final text does not start with; the corrected display shows it as sent. */
  lemma AsWrittenDisplayNotPrefix(parse: string -> Parse)
    requires parse(StreamHeader + ['\\', '\\', 'n']).NotJson?
    ensures var d := ['\\', 'n'];
      && Escape(d) == ['\\', '\\', 'n']
      && AssistantView(StreamHeader + Escape(d), true, parse) == ['\\', '\n']
      && !IsPrefix(AssistantView(StreamHeader + Escape(d), true, parse), d)
      && CorrectedAssistantView(StreamHeader + Escape(d), true, parse) == d
  {
    var d := ['\\', 'n'];
    AsWrittenBreaksRoundTrip();
    EscapedBackslashShown(parse);
    var shown := ['\\', '\n'];
    assert shown[1] != d[1];
  }

  /** Both views of the streamed escaped backslash-`n`. */
  lemma EscapedBackslashShown(parse: string -> Parse)
    ensures AssistantView(StreamHeader + ['\\', '\\', 'n'], true, parse) == ['\\', '\n']
    ensures CorrectedAssistantView(StreamHeader + ['\\', '\\', 'n'], true, parse) == ['\\', 'n']
  {
    var e := ['\\', '\\', 'n'];
    AsWrittenBreaksRoundTrip();
    assert Escape(['\\', 'n']) == e;
    EscapedBackslashCaptured();
    WholeValueScanned(StreamHeader + e, e, parse);
  }

  /** The escaped backslash-`n` is captured whole. */
  lemma EscapedBackslashCaptured()
    ensures CaptureValue(['\\', '\\', 'n']) == ['\\', '\\', 'n']
  {
    var e := ['\\', '\\', 'n'];
    assert e[..2] == ['\\', '\\'] && e[2..] == ['n'];
    CapturePlain(['n']);
  }

  /** A streamed answer made of the header and a value the scan keeps
      whole shows that value decoded by the display's decoder. */
  lemma WholeValueScanned(raw: string, e: string, parse: string -> Parse)
    requires raw == StreamHeader + e
    requires e != [] && CaptureValue(e) == e && !IsSpace(e[|e| - 1]) && e[|e| - 1] != '}'
    ensures AssistantView(raw, true, parse) == UnescapeAsWritten(e)
    ensures CorrectedAssistantView(raw, true, parse) == Unescape(e)
  {
    assert raw[0] == '{' && raw[|raw| - 1] == e[|e| - 1];
    TrimKeepsLast(raw);
    OpensBrace(raw);
    UnfinishedJsonScans(raw, parse);
    HeaderFound(e);
  }

  /** The three bouncing dots: shown while a request is in flight but
      before any reply is streaming, unless the list already ends with an
      assistant message. */
  predicate ShowTypingIndicator(loading: bool, streaming: bool, ms: seq<UIMessage>) {
    loading && !streaming && (|ms| == 0 || ms[|ms| - 1].role != Assistant)
  }

  /** The dots and a message being streamed never appear together, and the
      dots never follow an assistant message; with nothing in the list they
      show exactly while loading and not streaming. */
  lemma TypingIndicatorBeforeReply(loading: bool, streaming: bool, ms: seq<UIMessage>)
    ensures ShowTypingIndicator(loading, streaming, ms) ==>
      forall i :: 0 <= i < |ms| ==> !IsCurrentlyStreaming(i, |ms|, ms[i], streaming)
    ensures |ms| > 0 && ms[|ms| - 1].role == Assistant ==> !ShowTypingIndicator(loading, streaming, ms)
    ensures |ms| == 0 ==> (ShowTypingIndicator(loading, streaming, ms) <==> loading && !streaming)
  {
  }
}
